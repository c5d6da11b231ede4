/** The objects a source reads, as far as it reads them. Objects are values; the namespace and name
    of a namespaced object are its key. */
module Cluster {
  import opened Lifecycle
  import opened Endpoints

  datatype Name = Name(namespace: string, name: string)

  type Annotations = map<string, string>

  datatype Family = IPv4 | IPv6

  /** One endpoint of an EndpointSlice: an unset readiness counts as ready. */
  datatype SliceEndpoint = SliceEndpoint(ready: Option<bool>, node: Option<string>)

  /** An EndpointSlice with the value of its service-name label. */
  datatype Slice = Slice(service: Option<string>, endpoints: seq<SliceEndpoint>)

  datatype Provider = Provider(
    zones: seq<string>,
    ipv4: Option<string>,
    ipv6: Option<string>,
    ttl: int,
    deletionDelay: Option<int>,
    defaults: seq<Property>,
    annotationKeys: seq<string>)

  /** An Ingress rule: its host and, when it has an HTTP part, the service of each path. */
  datatype Rule = Rule(host: string, paths: Option<seq<Option<string>>>)

  datatype Ingress = Ingress(
    annotations: Annotations,
    className: Option<string>,
    defaultService: Option<string>,
    rules: seq<Rule>,
    tls: seq<seq<string>>)

  datatype RouteKind = HTTPRoute | TCPRoute | UDPRoute

  /** A parent or backend reference of a Gateway route. */
  datatype Ref = Ref(group: Option<string>, kind: Option<string>, namespace: Option<string>, name: string)

  /** A Gateway route. Only an HTTPRoute has hostnames. */
  datatype Route = Route(
    kind: RouteKind,
    annotations: Annotations,
    hostnames: seq<string>,
    parents: seq<Ref>,
    rules: seq<seq<Ref>>)

  datatype Gateway = Gateway(annotations: Annotations, className: string)

  datatype GrantFrom = GrantFrom(group: string, kind: string, namespace: string)
  datatype GrantTo = GrantTo(group: string, kind: string, name: Option<string>)
  datatype Grant = Grant(from: seq<GrantFrom>, to: seq<GrantTo>)

  /** Everything a source may depend on. Nodes are kept as their labels, classes as their annotations. */
  datatype State = State(
    services: set<Name>,
    slices: map<Name, Slice>,
    nodes: map<string, map<string, string>>,
    providers: map<string, Provider>,
    ingressClasses: map<string, Annotations>,
    gateways: map<Name, Gateway>,
    gatewayClasses: map<string, Annotations>,
    grants: map<Name, Grant>)

  /** A namespaced list: the empty namespace lists all of them. */
  predicate Listed(namespace: string, key: Name) { namespace == "" || key.namespace == namespace }

  /** What the API server guarantees of stored objects. */
  ghost predicate Stored(c: State) {
    && (forall k :: k in c.services ==> k.namespace != "" && k.name != "")
    && (forall k :: k in c.grants ==> k.namespace != "" && '/' !in k.namespace)
  }

  const GATEWAY_GROUP := "gateway.networking.k8s.io"
  const SERVICE := "Service"
  const GATEWAY := "Gateway"

  function KindName(kind: RouteKind): string {
    match kind
    case HTTPRoute => "HTTPRoute"
    case TCPRoute => "TCPRoute"
    case UDPRoute => "UDPRoute"
  }

  function OrEmpty(o: Option<string>): string { if o.Some? then o.value else "" }

  /** The text parsers of Go's libraries that stay parameters of the model. */
  datatype Parsers = Parsers(int64: string -> Option<int>, duration: string -> Option<int>)
}
