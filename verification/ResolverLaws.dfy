/** What a resolved publication guarantees, and that it is what the writer relies on. */
module ResolverLaws {
  import opened Lifecycle
  import opened Ordering
  import opened Text
  import opened Endpoints
  import opened Objects
  import opened Names
  import opened Cluster
  import opened AnnotationText
  import opened Projection
  import opened Resolver
  import opened Publisher
  import opened Sources
  import opened WriterSpec
  import opened WriterLaws

  lemma RecordListHas(q: Query, c: State, hosts: map<string, set<Name>>, s: Settings)
    ensures
      forall r :: r in RecordList(q, c, hosts, s) ==>
        IdOf(r) in RecordIds(q, c, hosts) && r == RecordAt(q, c, hosts, s, IdOf(r))
    ensures forall id :: id in RecordIds(q, c, hosts) ==> RecordAt(q, c, hosts, s, id) in RecordList(q, c, hosts, s)
    ensures DistinctRecords(RecordList(q, c, hosts, s))
  {
    hide RecordIds, TargetsOf, SortedStrings;
    Orders();
    var all := RecordIds(q, c, hosts);
    var ids, list := SortSet(IdLess, all), RecordList(q, c, hosts, s);
    SortSetSorts(IdLess, all);
    hide IdLess;
    forall r | r in list ensures IdOf(r) in all && r == RecordAt(q, c, hosts, s, IdOf(r)) {
      var i :| 0 <= i < |list| && list[i] == r;
      assert ids[i] in ids;
    }
    forall id | id in all ensures RecordAt(q, c, hosts, s, id) in list {
      assert id in ids;
      var i :| 0 <= i < |ids| && ids[i] == id;
      assert list[i] == RecordAt(q, c, hosts, s, id);
    }
    forall i, j | 0 <= i < j < |list| ensures IdOf(list[i]) != IdOf(list[j]) {
      assert IdLess(ids[i], ids[j]);
    }
  }

  /** The records of a hostname and a family, by the set of its addresses. */
  lemma RecordAddresses(q: Query, c: State, hosts: map<string, set<Name>>, s: Settings, h: string, f: Family)
    requires h in hosts && f in q.families
    ensures
      var list := RecordList(q, c, hosts, s);
      && (ListsId(list, RecordId(h, TypeOf(f))) <==>
        InZones(h, q.provider.zones) && HostAddresses(q, c, f, hosts[h]) != {})
      && (forall r :: r in list && IdOf(r) == RecordId(h, TypeOf(f)) ==>
        r.targets == SortedStrings(HostAddresses(q, c, f, hosts[h])))
      && (forall r :: r in list ==> r.dnsName in hosts && exists g :: g in q.families && r.recordType == TypeOf(g))
  {
    hide HostAddresses, InZones;
    RecordListHas(q, c, hosts, s);
    PublishedIff(q, c, hosts, h, f);
    hide RecordList, TargetsOf, SortedStrings;
    var id := RecordId(h, TypeOf(f));
    assert id in RecordIds(q, c, hosts) ==> IdOf(RecordAt(q, c, hosts, s, id)) == id;
  }

  function TypeName(f: Family): string { if f == IPv4 then "A" else "AAAA" }

  /** From the fields: some backend of the hostname has the address on a node with a ready endpoint. */
  ghost predicate Reached(c: State, p: Provider, f: Family, backends: set<Name>, a: string) {
    exists b :: b in backends && OnReadyNode(c, p, f, b, a)
  }

  /** RESOLVER REFINEMENT. A record exists for a hostname and a family exactly when the hostname is in a
      zone and some ready endpoint of its backends is on a node with an address of that family; its
      targets are those addresses, sorted, each once; there is no other record. */
  lemma RecordExact(q: Query, c: State, hosts: map<string, set<Name>>, s: Settings, h: string, f: Family)
    requires h in hosts && f in q.families
    ensures
      var list := RecordList(q, c, hosts, s);
      var id := RecordId(h, TypeName(f));
      && (ListsId(list, id) <==> InZones(h, q.provider.zones) && exists a :: Reached(c, q.provider, f, hosts[h], a))
      && (forall r, a :: r in list && IdOf(r) == id ==> (a in r.targets <==> Reached(c, q.provider, f, hosts[h], a)))
      && (forall r :: r in list && IdOf(r) == id ==> StrictlySorted(StringLess, r.targets))
      && (forall r :: r in list ==> r.dnsName in hosts && exists g :: g in q.families && r.recordType == TypeName(g))
  {
    hide InZones, RecordList, StringLess, OnReadyNode;
    RecordAddresses(q, c, hosts, s, h, f);
    assert TypeName(IPv4) == TypeOf(IPv4) && TypeName(IPv6) == TypeOf(IPv6);
    var addresses := HostAddresses(q, c, f, hosts[h]);
    forall a ensures a in addresses <==> Reached(c, q.provider, f, hosts[h], a) {
      HostExact(q, c, f, hosts[h], a);
    }
    hide HostAddresses, Reached;
    SortedStringsLists(addresses);
  }

  lemma HostExact(q: Query, c: State, f: Family, backends: set<Name>, a: string)
    ensures a in HostAddresses(q, c, f, backends) <==> Reached(c, q.provider, f, backends, a)
  {
    hide BackendAddresses, OnReadyNode;
    forall b | b in backends ensures a in BackendAddresses(q, c, f, b) <==> OnReadyNode(c, q.provider, f, b, a) {
      BackendExact(q, c, f, b, a);
    }
  }

  ghost predicate FixedHosts(hosts: map<string, set<Name>>) {
    forall h :: h in hosts ==> Hostname(h) && FixedName(h)
  }

  lemma AddressesFilled(q: Query, c: State, f: Family, backends: set<Name>)
    ensures forall a :: a in HostAddresses(q, c, f, backends) ==> a != ""
  {
    hide Read;
    forall n, a | a in Supplied(q, c, f, n) ensures a != "" {
      ReadFilled(q.provider, f, c.nodes[n]);
    }
    hide Supplied, ReadyNodes;
  }

  /** What every record of a publication looks like to the writer: filled fields, targets, a name that
      stays as it is. */
  lemma RecordsGood(q: Query, c: State, hosts: map<string, set<Name>>, s: Settings, r: Record)
    requires FixedHosts(hosts) && r in RecordList(q, c, hosts, s)
    ensures FixedName(r.dnsName) && r.dnsName != "" && r.recordType != "" && r.targets != []
    ensures NormId(r) == IdOf(r) && InZones(r.dnsName, q.provider.zones)
    ensures forall t :: t in r.targets ==> t != ""
  {
    RecordListHas(q, c, hosts, s);
    hide InZones, RecordList;
    var h, f :| h in hosts && InZones(h, q.provider.zones) && f in q.families && HostAddresses(q, c, f, hosts[h]) != {}
                && IdOf(r) == RecordId(h, TypeOf(f));
    PublishedIff(q, c, hosts, h, f);
    AddressesFilled(q, c, f, hosts[h]);
    SortedStringsLists(HostAddresses(q, c, f, hosts[h]));
    hide HostAddresses, RecordIds, TargetsOf;
    HostnameEnds(h);
    assert |TypeOf(IPv4)| == 1 && |TypeOf(IPv6)| == 4;
  }

  /** Distinct ids under the writer's normalisation: its merge never discards a record's attributes. */
  lemma {:induction false} NothingDiscarded(records: seq<Record>, r: Record)
    requires DistinctRecords(records) && r in records && forall d :: d in records ==> NormId(d) == IdOf(d)
    ensures NormId(r) in DesiredAttrs(records) && DesiredAttrs(records)[NormId(r)] == RecordAttr(r)
  {
    var n := |records| - 1;
    if r in records[..n] {
      NothingDiscarded(records[..n], r);
    } else {
      assert r == records[n];
      DesiredAttrsHas(records[..n], NormId(r));
      hide NormId, RecordAttr;
      forall d | d in records[..n] ensures NormId(d) != NormId(r) {
        assert d in records;
        var i :| 0 <= i < n && records[i] == d;
      }
    }
  }

  ghost predicate GoodProviders(c: State) {
    forall n :: n in c.providers && c.providers[n].deletionDelay.Some? ==> c.providers[n].deletionDelay.value >= 0
  }

  /** What the writer is given: a publication it accepts, whose records it keeps one for one, that is
      never a create of nothing, and that stays inside the provider's zones. */
  ghost predicate WellResolved(p: Provider, pub: Publication) {
    && GoodPublication(pub)
    && DistinctRecords(pub.records)
    && (forall r :: r in pub.records ==> r.targets != [] && InZones(r.dnsName, p.zones))
    && (forall r :: r in pub.records ==> NormId(r) == IdOf(r))
    && (forall r :: r in pub.records ==>
      NormId(r) in DesiredAttrs(pub.records) && DesiredAttrs(pub.records)[NormId(r)] == RecordAttr(r))
    && (pub.records != [] ==> DesiredKeys(pub.records) != {})
    && (forall k :: k in pub.metadata ==> k.ExternalDNS?)
  }

  lemma RecordsKept(q: Query, c: State, hosts: map<string, set<Name>>, s: Settings)
    requires FixedHosts(hosts)
    ensures
      var records := RecordList(q, c, hosts, s);
      && DistinctRecords(records)
      && (forall r :: r in records ==> FixedName(r.dnsName) && r.dnsName != "" && r.recordType != "")
      && (forall r :: r in records ==> r.targets != [] && InZones(r.dnsName, q.provider.zones))
      && (forall r, t :: r in records && t in r.targets ==> t != "")
      && (forall r :: r in records ==> NormId(r) == IdOf(r))
  {
    RecordListHas(q, c, hosts, s);
    hide RecordList, RecordIds, RecordAt, FixedName, FixedHosts, InZones, DistinctRecords, NormId;
    forall r | r in RecordList(q, c, hosts, s)
      ensures FixedName(r.dnsName) && r.dnsName != "" && r.recordType != "" && r.targets != []
      ensures NormId(r) == IdOf(r) && InZones(r.dnsName, q.provider.zones)
      ensures forall t :: t in r.targets ==> t != ""
    {
      RecordsGood(q, c, hosts, s, r);
    }
  }

  lemma KeptOneForOne(records: seq<Record>)
    requires DistinctRecords(records) && forall r :: r in records ==> NormId(r) == IdOf(r) && r.targets != []
    ensures
      forall r :: r in records ==>
        NormId(r) in DesiredAttrs(records) && DesiredAttrs(records)[NormId(r)] == RecordAttr(r)
    ensures records != [] ==> DesiredKeys(records) != {}
  {
    hide NormId, DesiredAttrs, RecordAttr, DistinctRecords, DesiredKeys;
    forall r | r in records
      ensures NormId(r) in DesiredAttrs(records) && DesiredAttrs(records)[NormId(r)] == RecordAttr(r)
    {
      NothingDiscarded(records, r);
    }
    if records != [] {
      var r := records[0];
      assert r in records;
      DesiredKeysHas(records, TargetKey(NormId(r), r.targets[0]));
      assert Wants(records, TargetKey(NormId(r), r.targets[0]));
    }
  }

  lemma PublicationGood(c: State, name: string, p: Provider, opts: Parsed, hosts: map<string, set<Name>>)
    requires FixedHosts(hosts)
    requires p.deletionDelay.Some? ==> p.deletionDelay.value >= 0
    requires opts.deletionDelay.Some? ==> opts.deletionDelay.value >= 0
    ensures WellResolved(p, PublicationFor(c, name, p, opts, hosts))
  {
    hide RecordList, FixedName, FixedHosts, InZones, PropertyList, PropertyMap, DistinctRecords, NormId;
    hide DesiredAttrs, RecordAttr, DesiredKeys;
    RecordsKept(QueryFor(p, opts), c, hosts, SettingsFor(p, opts));
    KeptOneForOne(RecordList(QueryFor(p, opts), c, hosts, SettingsFor(p, opts)));
  }

  lemma PublishedGood(c: State, opts: Parsed, hosts: map<string, set<Name>>, pubs: seq<Publication>)
    requires FixedHosts(hosts) && GoodProviders(c)
    requires opts.deletionDelay.Some? ==> opts.deletionDelay.value >= 0
    requires forall n :: n in opts.providers ==> n != ""
    requires Published(c, opts, hosts) == Some(pubs)
    ensures GoodOutcome(c, pubs)
  {
    hide AllResolve, WellResolved, RecordList, Metadata, SortedStrings, FixedHosts;
    var names := SortedStrings(Selected(c, opts));
    SortedStringsLists(Selected(c, opts));
    forall i | 0 <= i < |pubs|
      ensures pubs[i].providerName == names[i] && names[i] in c.providers && names[i] != ""
      ensures WellResolved(c.providers[names[i]], pubs[i])
    {
      assert names[i] in names;
      PublicationGood(c, names[i], ProviderAt(c, names[i]), opts, hosts);
    }
  }

  lemma IngressHostsFixed(ns: string, ing: Ingress, overrides: seq<string>)
    requires forall h :: h in overrides ==> Hostname(h) && FixedName(h)
    requires IngressHosts(ns, ing, overrides).Some?
    ensures FixedHosts(IngressHosts(ns, ing, overrides).value)
  {
    hide HostBackends, AllBackends, Hostname, FixedName;
    forall h | h in RuleHosts(ing.rules) ensures Hostname(h) && FixedName(h) {
      var r :| r in ing.rules && NormalizeHostname(r.host) == Some(h);
      NormalizedFixed(r.host);
    }
    forall h | h in TlsHosts(ing.tls) ensures Hostname(h) && FixedName(h) {
      var hosts, raw :| hosts in ing.tls && raw in hosts && NormalizeHostname(raw) == Some(h);
      NormalizedFixed(raw);
    }
    hide RuleHosts, TlsHosts;
  }

  lemma NormalizedFixed(raw: string)
    requires NormalizeHostname(raw).Some?
    ensures Hostname(NormalizeHostname(raw).value) && FixedName(NormalizeHostname(raw).value)
  {
    NormalizedIsFixed(raw);
  }

  lemma RouteHostsFixed(c: State, ns: string, route: Route, overrides: seq<string>)
    requires forall h :: h in overrides ==> Hostname(h) && FixedName(h)
    requires RouteHosts(c, ns, route, overrides).Some?
    ensures FixedHosts(RouteHosts(c, ns, route, overrides).value)
  {
    hide RouteBackends, Hostname, FixedName;
    forall h | h in RawHosts(route.hostnames) ensures Hostname(h) && FixedName(h) {
      var raw :| raw in route.hostnames && NormalizeHostname(raw) == Some(h);
      NormalizedFixed(raw);
    }
    hide RawHosts;
  }

  lemma ParsedDelay(ps: Parsers, values: Annotations)
    requires Parse(ps, values).Some?
    ensures var d := Parse(ps, values).value.deletionDelay; d.Some? ==> d.value >= 0
  {
    hide SortedStrings, SortedFamilies, Tokens, NormalizeHostname, FamilyOf;
  }

  /** Every publication a source controller hands to the writer is well resolved, and no two are for the
      same provider. */
  ghost predicate GoodOutcome(c: State, pubs: seq<Publication>) {
    forall i :: 0 <= i < |pubs| ==>
      && pubs[i].providerName in c.providers && pubs[i].providerName != ""
      && WellResolved(c.providers[pubs[i].providerName], pubs[i])
      && forall j :: i < j < |pubs| ==> pubs[i].providerName != pubs[j].providerName
  }

  lemma FinishGood(ps: Parsers, c: State, values: Annotations, hosts: Option<map<string, set<Name>>>)
    requires GoodProviders(c) && Parse(ps, values).Some?
    requires hosts.Some? ==> FixedHosts(hosts.value)
    requires Finish(c, Parse(ps, values).value, hosts).Some?
    ensures GoodOutcome(c, Finish(c, Parse(ps, values).value, hosts).value)
  {
    var opts := Parse(ps, values).value;
    ParsedDelay(ps, values);
    ParsedLists(ps, values);
    hide Parse, Published, FixedHosts, GoodProviders, StrictlySorted, Distinct, Hostname, ToLower, TrimDot;
    hide WellResolved;
    if opts.enabled && opts.providers != [] {
      PublishedGood(c, opts, hosts.value, Finish(c, opts, hosts).value);
    }
  }

  lemma IngressOutcomeGood(ps: Parsers, c: State, ns: string, ing: Ingress)
    requires GoodProviders(c) && IngressOutcome(ps, c, ns, ing).Some?
    ensures GoodOutcome(c, IngressOutcome(ps, c, ns, ing).value)
  {
    var values := IngressAnnotations(c, ing).value;
    var opts := Parse(ps, values).value;
    ParsedLists(ps, values);
    hide IngressAnnotations, Parse, IngressHosts, Finish, GoodOutcome, GoodProviders;
    if IngressHosts(ns, ing, opts.hostnames).Some? {
      IngressHostsFixed(ns, ing, opts.hostnames);
    }
    FinishGood(ps, c, values, IngressHosts(ns, ing, opts.hostnames));
  }

  lemma RouteOutcomeGood(ps: Parsers, c: State, ns: string, route: Route)
    requires GoodProviders(c) && RouteOutcome(ps, c, ns, route).Some?
    ensures GoodOutcome(c, RouteOutcome(ps, c, ns, route).value)
  {
    var values := RouteAnnotations(c, ns, route).value;
    var opts := Parse(ps, values).value;
    ParsedLists(ps, values);
    hide RouteAnnotations, Parse, RouteHosts, Finish, GoodOutcome, GoodProviders;
    if RouteHosts(c, ns, route, opts.hostnames).Some? {
      RouteHostsFixed(c, ns, route, opts.hostnames);
    }
    FinishGood(ps, c, values, RouteHosts(c, ns, route, opts.hostnames));
  }
}
