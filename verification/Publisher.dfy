/** One publication for each provider: records, properties, metadata and the settings that apply. */
module Publisher {
  import opened Lifecycle
  import opened Ordering
  import opened Text
  import opened Endpoints
  import opened Objects
  import opened Names
  import opened Cluster
  import opened AnnotationText
  import opened Projection
  import opened Resolver

  function FamiliesFor(p: Provider, requested: seq<Family>): seq<Family> {
    if requested != [] then requested
    else (if p.ipv4.Some? then [IPv4] else []) + (if p.ipv6.Some? then [IPv6] else [])
  }

  function IdOf(r: Record): RecordId { RecordId(r.dnsName, r.recordType) }

  predicate RecordLess(a: Record, b: Record) { IdLess(IdOf(a), IdOf(b)) }

  ghost predicate ListsId(records: seq<Record>, id: RecordId) { exists r :: r in records && IdOf(r) == id }

  ghost predicate DistinctRecords(records: seq<Record>) {
    forall i, j :: 0 <= i < j < |records| ==> IdOf(records[i]) != IdOf(records[j])
  }

  /** The records for those of `ids` that are among `done`, each once, in some order. */
  ghost predicate Lists(ids: set<RecordId>, value: RecordId -> Record, done: set<RecordId>, records: seq<Record>) {
    && DistinctRecords(records)
    && (forall r :: r in records ==> IdOf(r) in ids && IdOf(r) in done && r == value(IdOf(r)))
    && (forall id :: id in ids && id in done ==> ListsId(records, id))
  }

  lemma ListsMore(ids: set<RecordId>, value: RecordId -> Record, done: set<RecordId>, records: seq<Record>,
                  id: RecordId)
    requires Lists(ids, value, done, records) && id !in done
    requires IdOf(value(id)) == id
    ensures Lists(ids, value, done + {id}, if id in ids then records + [value(id)] else records)
  {
    var more := records + [value(id)];
    if id in ids {
      forall i, j | 0 <= i < j < |more| ensures IdOf(more[i]) != IdOf(more[j]) {
        assert more[i] == records[i];
        assert records[i] in records;
      }
      forall x | x in ids && x in done + {id} ensures ListsId(more, x) {
        if x == id {
          assert more[|records|] in more;
        } else {
          var r :| r in records && IdOf(r) == x;
          assert r in more;
        }
      }
    }
  }

  lemma ListsSkip(ids: set<RecordId>, value: RecordId -> Record, done: set<RecordId>, records: seq<Record>,
                  more: set<RecordId>)
    requires Lists(ids, value, done, records) && ids !! more
    ensures Lists(ids, value, done + more, records)
  {
  }

  lemma RecordOrder()
    ensures StrictWeak(RecordLess)
  {
    Orders();
    TotalIsWeak(IdLess);
    forall x: Record, y: Record | RecordLess(x, y) ensures !RecordLess(y, x) {
      assert IdLess(IdOf(x), IdOf(y));
    }
    forall x: Record, y: Record, z: Record | !RecordLess(x, y) && !RecordLess(y, z) ensures !RecordLess(x, z) {
      assert !IdLess(IdOf(x), IdOf(y)) && !IdLess(IdOf(y), IdOf(z));
    }
  }

  function IdsIn(records: seq<Record>): (r: seq<RecordId>)
    ensures |r| == |records| && forall i :: 0 <= i < |r| ==> r[i] == IdOf(records[i])
  {
    seq(|records|, i requires 0 <= i < |records| => IdOf(records[i]))
  }

  /** Sorting a complete listing by id gives the one sorted list. */
  lemma ListsSorted(ids: set<RecordId>, value: RecordId -> Record, done: set<RecordId>, records: seq<Record>,
                    sorted: seq<Record>)
    requires Lists(ids, value, done, records) && ids <= done
    requires multiset(records) == multiset(sorted) && Sorted(RecordLess, sorted)
    ensures StrictTotal(IdLess) && IdsIn(sorted) == SortSet(IdLess, ids)
    ensures forall i :: 0 <= i < |sorted| ==> sorted[i] == value(IdsIn(sorted)[i])
  {
    Orders();
    SameElements(records, sorted);
    SortedWithoutTies(IdLess, IdOf, records, sorted);
    var list := IdsIn(sorted);
    forall id ensures id in list <==> id in ids {
      if id in list {
        var i :| 0 <= i < |list| && list[i] == id;
        assert sorted[i] in records;
      }
      if id in ids {
        var r :| r in records && IdOf(r) == id;
        var i :| 0 <= i < |sorted| && sorted[i] == r;
        assert list[i] == id;
      }
    }
    SortSetSorts(IdLess, ids);
    SortedUnique(IdLess, list, SortSet(IdLess, ids));
    forall i | 0 <= i < |sorted| ensures sorted[i] == value(list[i]) {
      assert sorted[i] in records;
    }
  }

  ghost function ValueOf(q: Query, c: State, hosts: map<string, set<Name>>, s: Settings): RecordId -> Record {
    id => RecordAt(q, c, hosts, s, id)
  }

  function Candidates(h: string, families: seq<Family>): set<RecordId> {
    set f | f in families :: RecordId(h, TypeOf(f))
  }

  lemma CandidatesStep(h: string, families: seq<Family>, i: nat)
    requires i < |families| && Distinct(families)
    ensures Candidates(h, families[..i + 1]) == Candidates(h, families[..i]) + {RecordId(h, TypeOf(families[i]))}
    ensures RecordId(h, TypeOf(families[i])) !in Candidates(h, families[..i])
  {
    assert families[..i + 1] == families[..i] + [families[i]];
    forall f | f in families[..i] ensures TypeOf(f) != TypeOf(families[i]) {
      assert f != families[i];
      assert |TypeOf(IPv4)| == 1 && |TypeOf(IPv6)| == 4;
    }
  }

  lemma PublishedIff(q: Query, c: State, hosts: map<string, set<Name>>, h: string, f: Family)
    requires h in hosts && f in q.families
    ensures RecordId(h, TypeOf(f)) in RecordIds(q, c, hosts) <==>
              InZones(h, q.provider.zones) && HostAddresses(q, c, f, hosts[h]) != {}
    ensures TargetsOf(q, c, hosts, RecordId(h, TypeOf(f))) == HostAddresses(q, c, f, hosts[h])
  {
    hide HostAddresses, InZones;
    assert |TypeOf(IPv4)| == 1 && |TypeOf(IPv6)| == 4;
  }

  lemma OutsideZones(q: Query, c: State, hosts: map<string, set<Name>>, h: string)
    requires !InZones(h, q.provider.zones)
    ensures RecordIds(q, c, hosts) !! Candidates(h, q.families)
  {
    hide HostAddresses, InZones;
  }

  /** The body of the loop over the hostnames. */
  method AppendHost(q: Query, c: State, ghost hosts: map<string, set<Name>>, host: HostProjection, s: Settings,
                    records: seq<Record>, ghost done: set<RecordId>) returns (ok: bool, r: seq<Record>)
    requires host.hostname in hosts && Elems(host.backends) == hosts[host.hostname] && Distinct(q.families)
    requires Lists(RecordIds(q, c, hosts), ValueOf(q, c, hosts, s), done, records)
    requires forall id :: id in done ==> id.dnsName != host.hostname
    ensures ok <==> (InZones(host.hostname, q.provider.zones) ==> forall b :: b in host.backends ==> Resolves(q, c, b))
    ensures
      ok ==> Lists(RecordIds(q, c, hosts), ValueOf(q, c, hosts, s), done + Candidates(host.hostname, q.families), r)
  {
    hide Lists, HostAddresses, InZones, RecordIds, Resolves, SortedStrings;
    ok, r := true, records;
    var h := host.hostname;
    var zone := MatchingZone(h, q.provider.zones);
    if zone == "" {
      OutsideZones(q, c, hosts, h);
      ListsSkip(RecordIds(q, c, hosts), ValueOf(q, c, hosts, s), done, r, Candidates(h, q.families));
      return;
    }
    var targets := HostTargets(q, c, host.backends);
    if targets.None? {
      return false, r;
    }
    assert done + Candidates(h, q.families[..0]) == done;
    for i := 0 to |q.families|
      invariant Lists(RecordIds(q, c, hosts), ValueOf(q, c, hosts, s), done + Candidates(h, q.families[..i]), r)
    {
      var family := q.families[i];
      var values := StringSet(targets.value[family]);
      SortedStringsLists(targets.value[family]);
      PublishedIff(q, c, hosts, h, family);
      CandidatesStep(h, q.families, i);
      ghost var id := RecordId(h, TypeOf(family));
      ghost var before := done + Candidates(h, q.families[..i]);
      assert done + Candidates(h, q.families[..i + 1]) == before + {id};
      ListsMore(RecordIds(q, c, hosts), ValueOf(q, c, hosts, s), before, r, id);
      if |values| == 0 {
        continue;
      }
      r := r + [Record(h, TypeOf(family), values, s.ttl, s.properties)];
    }
    assert q.families[..|q.families|] == q.families;
  }

  function AllCandidates(names: seq<string>, families: seq<Family>): set<RecordId> {
    set h, f | h in names && f in families :: RecordId(h, TypeOf(f))
  }

  lemma AllCandidatesStep(names: seq<string>, i: nat, families: seq<Family>)
    requires i < |names| && Distinct(names)
    ensures
      AllCandidates(names[..i + 1], families) == AllCandidates(names[..i], families) + Candidates(names[i], families)
    ensures forall id :: id in AllCandidates(names[..i], families) ==> id.dnsName != names[i]
  {
    forall h ensures h in names[..i + 1] <==> h in names[..i] || h == names[i] {
      assert names[..i + 1] == names[..i] + [names[i]];
    }
    forall id | id in AllCandidates(names[..i], families) + Candidates(names[i], families)
      ensures id in AllCandidates(names[..i + 1], families)
    {
      var f :| f in families && id == RecordId(id.dnsName, TypeOf(f));
      assert id.dnsName in names[..i + 1];
    }
    forall id | id in AllCandidates(names[..i + 1], families)
      ensures id in AllCandidates(names[..i], families) + Candidates(names[i], families)
    {
      var h, f :| h in names[..i + 1] && f in families && id == RecordId(h, TypeOf(f));
      assert h in names[..i] ==> id in AllCandidates(names[..i], families);
    }
  }

  /** The records of one provider: all hostnames and families, then sorted. */
  method ResolveRecords(q: Query, c: State, ghost hosts: map<string, set<Name>>, projection: seq<HostProjection>,
                        s: Settings)
    returns (r: Option<seq<Record>>)
    requires Projects(projection, hosts) && Distinct(Hostnames(projection)) && Distinct(q.families)
    ensures r.None? <==> !AllResolve(q, c, hosts)
    ensures r.Some? ==> r.value == RecordList(q, c, hosts, s)
  {
    var records: seq<Record> := [];
    ghost var names := Hostnames(projection);
    hide RecordIds, Resolves, InZones, Distinct, Lists, RecordList;
    StartLists(q, c, hosts, s, names);
    for i := 0 to |projection|
      invariant forall j :: 0 <= j < i ==> HostResolves(q, c, projection[j])
      invariant Lists(RecordIds(q, c, hosts), ValueOf(q, c, hosts, s), AllCandidates(names[..i], q.families), records)
    {
      AllCandidatesStep(names, i, q.families);
      hide AllCandidates;
      var ok, next := AppendHost(q, c, hosts, projection[i], s, records, AllCandidates(names[..i], q.families));
      if !ok {
        return None;
      }
      records := next;
    }
    assert names[..|names|] == names;
    RecordOrder();
    var sorted := Sort(RecordLess, records);
    FinishLists(q, c, hosts, s, names, records, sorted);
    r := Some(sorted);
  }

  ghost predicate HostResolves(q: Query, c: State, host: HostProjection) {
    InZones(host.hostname, q.provider.zones) ==> forall b :: b in host.backends ==> Resolves(q, c, b)
  }

  lemma StartLists(q: Query, c: State, hosts: map<string, set<Name>>, s: Settings, names: seq<string>)
    ensures Lists(RecordIds(q, c, hosts), ValueOf(q, c, hosts, s), AllCandidates(names[..0], q.families), [])
  {
  }

  lemma FinishLists(q: Query, c: State, hosts: map<string, set<Name>>, s: Settings, names: seq<string>,
                    records: seq<Record>, sorted: seq<Record>)
    requires Elems(names) == hosts.Keys
    requires Lists(RecordIds(q, c, hosts), ValueOf(q, c, hosts, s), AllCandidates(names, q.families), records)
    requires multiset(records) == multiset(sorted) && Sorted(RecordLess, sorted)
    ensures sorted == RecordList(q, c, hosts, s)
  {
    hide Lists, Sorted, HostAddresses, InZones;
    forall id | id in RecordIds(q, c, hosts) ensures id in AllCandidates(names, q.families) {
      var h, f :| h in hosts && f in q.families && id == RecordId(h, TypeOf(f));
      assert h in Elems(names);
    }
    ListsSorted(RecordIds(q, c, hosts), ValueOf(q, c, hosts, s), AllCandidates(names, q.families), records, sorted);
    hide RecordIds;
  }

  /** The defaults of a provider, the last one of a name winning. */
  function DefaultProperties(defaults: seq<Property>): map<string, string> {
    if defaults == [] then map[]
    else DefaultProperties(defaults[..|defaults| - 1])[defaults[|defaults| - 1].name := defaults[|defaults| - 1].value]
  }

  /** Allow-listed annotations override the defaults. */
  function PropertyMap(p: Provider, annotations: Annotations): map<string, string> {
    DefaultProperties(p.defaults) + map k | k in p.annotationKeys && k in annotations :: annotations[k]
  }

  ghost function PropertyList(m: map<string, string>): seq<Property> {
    var names := SortedStrings(m.Keys);
    SortedStringsLists(m.Keys);
    seq(|names|, i requires 0 <= i < |names| => Property(names[i], m[names[i]]))
  }

  /** The annotations copied to the object: those under ExternalDNS's prefix. */
  function MetadataKeys(annotations: Annotations): set<AnnotationKey> {
    set k | k in annotations && HasPrefix(k, EXTERNAL_DNS) :: ExternalDNS(k[|EXTERNAL_DNS|..])
  }

  function Metadata(annotations: Annotations): map<AnnotationKey, string> {
    map k | k in MetadataKeys(annotations) && k.ExternalDNS? && EXTERNAL_DNS + k.suffix in annotations
      :: annotations[EXTERNAL_DNS + k.suffix]
  }

  /** Nothing under the prefix is lost, and nothing else is copied. */
  lemma MetadataAt(annotations: Annotations, key: AnnotationKey)
    ensures key in Metadata(annotations) <==> key.ExternalDNS? && EXTERNAL_DNS + key.suffix in annotations
    ensures key in Metadata(annotations) ==> Metadata(annotations)[key] == annotations[EXTERNAL_DNS + key.suffix]
  {
    if key.ExternalDNS? && EXTERNAL_DNS + key.suffix in annotations {
      var k := EXTERNAL_DNS + key.suffix;
      assert HasPrefix(k, EXTERNAL_DNS) && k[|EXTERNAL_DNS|..] == key.suffix;
      assert ExternalDNS(k[|EXTERNAL_DNS|..]) in MetadataKeys(annotations);
    }
  }

  method ProviderProperties(p: Provider, annotations: Annotations) returns (r: seq<Property>)
    ensures r == PropertyList(PropertyMap(p, annotations))
  {
    var properties: map<string, string> := map[];
    for i := 0 to |p.defaults|
      invariant properties == DefaultProperties(p.defaults[..i])
    {
      assert p.defaults[..i + 1][..i] == p.defaults[..i];
      properties := properties[p.defaults[i].name := p.defaults[i].value];
    }
    assert p.defaults[..|p.defaults|] == p.defaults;
    properties := Override(properties, p.annotationKeys, annotations);
    r := ListProperties(properties);
  }

  method Override(defaults: map<string, string>, keys: seq<string>, annotations: Annotations)
    returns (r: map<string, string>)
    ensures r == defaults + map k | k in keys && k in annotations :: annotations[k]
  {
    r := defaults;
    for i := 0 to |keys|
      invariant r == defaults + map k | k in keys[..i] && k in annotations :: annotations[k]
    {
      assert keys[..i + 1] == keys[..i] + [keys[i]];
      if keys[i] in annotations {
        r := r[keys[i] := annotations[keys[i]]];
      }
    }
    assert keys[..|keys|] == keys;
  }

  method ListProperties(m: map<string, string>) returns (r: seq<Property>)
    ensures r == PropertyList(m)
  {
    var names := StringSet(m.Keys);
    SortedStringsLists(m.Keys);
    r := [];
    for i := 0 to |names|
      invariant |r| == i && forall j :: 0 <= j < i ==> names[j] in m && r[j] == Property(names[j], m[names[j]])
    {
      assert names[i] in m;
      r := r + [Property(names[i], m[names[i]])];
    }
  }

  const DEFAULT_TTL := 300
  const DEFAULT_DELAY := 60_000_000_000

  function TtlFor(p: Provider, opts: Parsed): int {
    if opts.ttl.Some? then opts.ttl.value else if p.ttl == 0 then DEFAULT_TTL else p.ttl
  }

  function DelayFor(p: Provider, opts: Parsed): int {
    if opts.deletionDelay.Some? then opts.deletionDelay.value
    else if p.deletionDelay.Some? then p.deletionDelay.value
    else DEFAULT_DELAY
  }

  function QueryFor(p: Provider, opts: Parsed): Query { Query(p, FamiliesFor(p, opts.families)) }

  ghost function SettingsFor(p: Provider, opts: Parsed): Settings {
    Settings(TtlFor(p, opts), PropertyList(PropertyMap(p, opts.resolved)))
  }

  ghost function PublicationFor(c: State, name: string, p: Provider, opts: Parsed, hosts: map<string, set<Name>>)
    : Publication
  {
    Publication(name, RecordList(QueryFor(p, opts), c, hosts, SettingsFor(p, opts)), Metadata(opts.resolved),
        DelayFor(p, opts))
  }

  lemma PublicationNamed(c: State, name: string, p: Provider, opts: Parsed, hosts: map<string, set<Name>>)
    ensures PublicationFor(c, name, p, opts, hosts).providerName == name
  {
  }

  function Selected(c: State, opts: Parsed): set<string> { set n | n in opts.providers && n in c.providers }

  const NO_PROVIDER := Cluster.Provider.Provider([], None, None, 0, None, [], [])

  function ProviderAt(c: State, n: string): Provider { if n in c.providers then c.providers[n] else NO_PROVIDER }

  ghost function PublicationBy(c: State, n: string, opts: Parsed, hosts: map<string, set<Name>>): Publication {
    PublicationFor(c, n, ProviderAt(c, n), opts, hosts)
  }

  /** All publications of a source, or none when some backend of some selected provider does not resolve. */
  ghost function Published(c: State, opts: Parsed, hosts: map<string, set<Name>>): Option<seq<Publication>> {
    if forall n :: n in Selected(c, opts) ==> AllResolve(QueryFor(ProviderAt(c, n), opts), c, hosts) then
      var names := SortedStrings(Selected(c, opts));
      Some(seq(|names|, i requires 0 <= i < |names| => PublicationBy(c, names[i], opts, hosts)))
    else None
  }

  method ResolvePublication(c: State, name: string, p: Provider, opts: Parsed, ghost hosts: map<string, set<Name>>,
                            projection: seq<HostProjection>) returns (r: Option<Publication>)
    requires Projects(projection, hosts) && Distinct(Hostnames(projection)) && Distinct(opts.families)
    ensures r.None? <==> !AllResolve(QueryFor(p, opts), c, hosts)
    ensures r.Some? ==> r.value == PublicationFor(c, name, p, opts, hosts)
  {
    hide AllResolve, RecordList, PropertyList, PropertyMap, Metadata, Projects;
    var families := opts.families;
    if |families| == 0 {
      if p.ipv4.Some? {
        families := families + [IPv4];
      }
      if p.ipv6.Some? {
        families := families + [IPv6];
      }
    }
    assert families == FamiliesFor(p, opts.families) && Distinct(families);
    var properties := ProviderProperties(p, opts.resolved);
    var ttl := p.ttl;
    if ttl == 0 {
      ttl := DEFAULT_TTL;
    }
    if opts.ttl.Some? {
      ttl := opts.ttl.value;
    }
    var records := ResolveRecords(Query(p, families), c, hosts, projection, Settings(ttl, properties));
    if records.None? {
      return None;
    }
    var delay := DEFAULT_DELAY;
    if p.deletionDelay.Some? {
      delay := p.deletionDelay.value;
    }
    if opts.deletionDelay.Some? {
      delay := opts.deletionDelay.value;
    }
    r := Some(Publication(name, records.value, Metadata(opts.resolved), delay));
  }

  /** `loadProviders`: a provider that does not exist is deselected. Names given twice are loaded twice; the
      annotation parser gives each once. */
  method LoadProviders(c: State, names: seq<string>) returns (r: seq<string>)
    ensures Sorted(StringLess, r) && Elems(r) == set n | n in names && n in c.providers
    ensures Distinct(names) ==> r == SortedStrings(set n | n in names && n in c.providers)
  {
    var list: seq<string> := [];
    for i := 0 to |names|
      invariant forall x :: x in list <==> x in names[..i] && x in c.providers
      invariant Distinct(names) ==> Distinct(list)
    {
      assert names[..i + 1] == names[..i] + [names[i]];
      if names[i] in c.providers {
        if Distinct(names) {
          forall j | 0 <= j < |list| ensures list[j] != names[i] { assert list[j] in names[..i]; }
        }
        list := list + [names[i]];
      }
    }
    assert names[..|names|] == names;
    assert StrictTotal(StringLess) && StrictWeak(StringLess) by { StringOrder(); TotalIsWeak(StringLess); }
    hide StringLess;
    r := Sort(StringLess, list);
    assert Elems(r) == set n | n in names && n in c.providers;
    if Distinct(names) {
      SortedWithoutTies(StringLess, (x: string) => x, list, r);
      SortedIsSortSet(StringLess, r);
    }
  }

  lemma PublishedIs(c: State, opts: Parsed, hosts: map<string, set<Name>>, result: seq<Publication>)
    requires forall n :: n in Selected(c, opts) ==> AllResolve(QueryFor(ProviderAt(c, n), opts), c, hosts)
    requires |result| == |SortedStrings(Selected(c, opts))|
    requires forall i :: 0 <= i < |result| ==>
               var n := SortedStrings(Selected(c, opts))[i];
               result[i] == PublicationFor(c, n, ProviderAt(c, n), opts, hosts)
    ensures Published(c, opts, hosts) == Some(result)
  {
    hide AllResolve, PublicationFor, Selected, SortedStrings;
    var r := Published(c, opts, hosts);
    assert r.Some? && |r.value| == |result|;
    forall i | 0 <= i < |result| ensures r.value[i] == result[i] { }
    assert r.value == result;
  }

  predicate PublicationLess(a: Publication, b: Publication) { StringLess(a.providerName, b.providerName) }

  /** The final sort by provider name finds the publications in order. */
  method SortPublications(values: seq<Publication>, ghost names: seq<string>) returns (r: seq<Publication>)
    requires StrictlySorted(StringLess, names) && |names| == |values|
    requires forall i :: 0 <= i < |values| ==> values[i].providerName == names[i]
    ensures r == values
  {
    StringOrder();
    TotalIsWeak(StringLess);
    assert StrictWeak(PublicationLess) by {
      hide StringLess;
      forall x: Publication, y: Publication | PublicationLess(x, y) ensures !PublicationLess(y, x) {
        assert StringLess(x.providerName, y.providerName);
      }
      forall x: Publication, y: Publication, z: Publication | !PublicationLess(x, y) && !PublicationLess(y, z)
        ensures !PublicationLess(x, z)
      {
        assert !StringLess(x.providerName, y.providerName) && !StringLess(y.providerName, z.providerName);
      }
    }
    hide StringLess;
    r := Sort(PublicationLess, values);
    var name := (p: Publication) => p.providerName;
    assert Keyed(name, values) == names;
    SortedAlready(StringLess, name, values, r);
  }

  lemma SortedDistinct(names: seq<string>)
    requires StrictlySorted(StringLess, names)
    ensures Distinct(names)
  {
    StringOrder();
  }

  /** `Publications`: every selected provider in turn. */
  method ResolvePublications(c: State, opts: Parsed, ghost hosts: map<string, set<Name>>,
                             projection: seq<HostProjection>)
    returns (r: Option<seq<Publication>>)
    requires Projects(projection, hosts) && Distinct(Hostnames(projection)) && Distinct(opts.families)
    requires StrictlySorted(StringLess, opts.providers)
    ensures r == Published(c, opts, hosts)
  {
    hide AllResolve, PublicationFor, Projects, Distinct, StrictlySorted, StringLess;
    assert Distinct(opts.providers) by { SortedDistinct(opts.providers); }
    var names := LoadProviders(c, opts.providers);
    assert Selected(c, opts) == set n | n in opts.providers && n in c.providers;
    SortedStringsLists(Selected(c, opts));
    var result: seq<Publication> := [];
    for i := 0 to |names|
      invariant |result| == i
      invariant forall j :: 0 <= j < i ==>
                  && AllResolve(QueryFor(ProviderAt(c, names[j]), opts), c, hosts)
                  && result[j] == PublicationFor(c, names[j], ProviderAt(c, names[j]), opts, hosts)
                  && result[j].providerName == names[j]
    {
      assert names[i] in Selected(c, opts);
      var one := ResolvePublication(c, names[i], ProviderAt(c, names[i]), opts, hosts, projection);
      if one.None? {
        return None;
      }
      PublicationNamed(c, names[i], ProviderAt(c, names[i]), opts, hosts);
      result := result + [one.value];
    }
    forall n | n in Selected(c, opts) ensures AllResolve(QueryFor(ProviderAt(c, n), opts), c, hosts) {
      assert n in names;
    }
    PublishedIs(c, opts, hosts, result);
    var sorted := SortPublications(result, names);
    r := Some(sorted);
  }
}
