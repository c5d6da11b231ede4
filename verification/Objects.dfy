/** Sources, publications and the DNSEndpoint object, with the identity helpers of the writer. The
    hash is a parameter: nothing but its results' length and alphabet, or its injectivity, is ever
    used, and only where a lemma says so.
 */
module Objects {
  import opened Endpoints
  import opened Lifecycle
  import opened Text

  const NUL: char := 0 as char

  datatype Identity = Identity(apiVersion: string, kind: string, namespace: string, name: string, uid: string)

  datatype Record = Record(dnsName: string, recordType: string, targets: seq<string>, ttl: int,
      properties: seq<Property>)

  /** The label keys the writer uses; any other label is foreign to it. */
  datatype LabelKey = ManagedBy | Provider | SourceKeyLabel | ForeignLabel(name: string)

  /** The annotation keys the writer uses. `ExternalDNS` stands for every key under
      `external-dns.alpha.kubernetes.io/`; the lifecycle and deletion-delay annotations are fields
      of the object. */
  datatype AnnotationKey =
    | SourceKind | SourceNamespace | SourceName | SourceUID
    | ExternalDNS(suffix: string)
    | ForeignAnnotation(name: string)

  datatype Publication = Publication(
    providerName: string, records: seq<Record>, metadata: map<AnnotationKey, string>, deletionDelay: int)

  /** What an unselected provider reaches `build` with: the zero value of a map lookup. */
  const ZERO_PUBLICATION := Publication("", [], map[], 0)

  datatype OwnerRef = OwnerRef(apiVersion: string, kind: string, name: string)

  /** The stored deletion-delay text: absent or not a duration, or a duration in nanoseconds. */
  datatype DelayText = NoDelay | Delay(nanos: int)

  datatype Object = Object(
    namespace: string,
    name: string,
    labels: map<LabelKey, string>,
    annotations: map<AnnotationKey, string>,
    delay: DelayText,
    lifecycle: LifecycleText,
    owners: seq<OwnerRef>,
    endpoints: seq<Endpoint>)

  const MANAGED_BY_VALUE := "labdns"

  function Lookup<K>(m: map<K, string>, k: K): string { if k in m then m[k] else "" }

  function IdentityValue(id: Identity): string {
    id.apiVersion + [NUL] + id.kind + [NUL] + id.namespace + [NUL] + id.name
  }

  function SourceKey(hash16: string -> string, id: Identity): string {
    hash16(IdentityValue(id))
  }

  const MAX_PREFIX := 253 - 1 - 16

  function ObjectName(hash16: string -> string, id: Identity, provider: string): string {
    NamePrefix(id, provider) + "-" + hash16(IdentityValue(id) + [NUL] + provider)
  }

  function NamePrefix(id: Identity, provider: string): string {
    var prefix := Sanitize(id.kind + "-" + id.name + "-" + provider);
    var cut := if |prefix| > MAX_PREFIX then TrimDashes(prefix[..MAX_PREFIX]) else prefix;
    if cut == "" then "source" else cut
  }

  /** The scan of `sanitize` over an already lower-case text, last character last. */
  function Scan(s: string): string {
    if s == "" then ""
    else
      var done := Scan(s[..|s| - 1]);
      var c := s[|s| - 1];
      if Alnum(c) then done + [c]
      else if done != "" && done[|done| - 1] != '-' then done + "-"
      else done
  }

  function TrimLeft(s: string): string {
    if s != "" && s[0] == '-' then TrimLeft(s[1..]) else s
  }

  function TrimRight(s: string): string {
    if s != "" && s[|s| - 1] == '-' then TrimRight(s[..|s| - 1]) else s
  }

  function TrimDashes(s: string): string { TrimRight(TrimLeft(s)) }

  function Sanitize(s: string): string { TrimDashes(Scan(ToLower(s))) }
}
