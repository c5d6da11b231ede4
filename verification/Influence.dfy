/** What the settings of a publication are, and what does not influence publications at all. */
module Influence {
  import opened Lifecycle
  import opened Ordering
  import opened Text
  import opened Endpoints
  import opened Objects
  import opened Names
  import opened Cluster
  import opened AnnotationText
  import opened Projection
  import opened Resolver
  import opened Publisher
  import opened Sources
  import opened ResolverLaws
  import opened Index
  import opened SourceLaws

  /** From the annotations and the provider: the annotation if it is given, else the provider's delay, else a
      minute. */
  predicate DelayIs(ps: Parsers, values: Annotations, p: Provider, delay: int) {
    if DELETION_DELAY in values then ps.duration(TrimSpace(values[DELETION_DELAY])) == Some(delay)
    else if p.deletionDelay.Some? then delay == p.deletionDelay.value
    else delay == 60 * 1_000_000_000
  }

  predicate TtlIs(ps: Parsers, values: Annotations, p: Provider, ttl: int) {
    if TTL in values then ps.int64(TrimSpace(values[TTL])) == Some(ttl)
    else if p.ttl != 0 then ttl == p.ttl
    else ttl == 300
  }

  /** The last default of the name has this value. */
  ghost predicate DefaultIs(defaults: seq<Property>, name: string, value: string) {
    exists i ::
      && 0 <= i < |defaults| && defaults[i] == Property(name, value)
      && forall j :: i < j < |defaults| ==> defaults[j].name != name
  }

  /** An allow-listed annotation beats the default of its name; every other default survives. */
  ghost predicate PropertyIs(values: Annotations, p: Provider, name: string, value: string) {
    if name in p.annotationKeys && name in values && IsRelevant(name) then value == values[name]
    else DefaultIs(p.defaults, name, value)
  }

  lemma {:induction false} DefaultsExact(defaults: seq<Property>, name: string, value: string)
    ensures
      (name in DefaultProperties(defaults) && DefaultProperties(defaults)[name] == value) <==>
        DefaultIs(defaults, name, value)
    ensures name in DefaultProperties(defaults) <==> exists i :: 0 <= i < |defaults| && defaults[i].name == name
  {
    if defaults != [] {
      var n := |defaults| - 1;
      DefaultsExact(defaults[..n], name, value);
      if defaults[n].name != name {
        if DefaultIs(defaults[..n], name, value) {
          var i :| 0 <= i < n && defaults[..n][i] == Property(name, value)
                   && forall j :: i < j < n ==> defaults[..n][j].name != name;
          assert defaults[i] == Property(name, value);
          forall j | i < j < |defaults| ensures defaults[j].name != name {
            assert j < n ==> defaults[..n][j] == defaults[j];
          }
        }
        if DefaultIs(defaults, name, value) {
          var i :| 0 <= i <= n && defaults[i] == Property(name, value)
                   && forall j :: i < j < |defaults| ==> defaults[j].name != name;
          assert i < n && defaults[..n][i] == defaults[i];
        }
        if exists i :: 0 <= i < n && defaults[..n][i].name == name {
          var i :| 0 <= i < n && defaults[..n][i].name == name;
          assert defaults[i].name == name;
        }
      }
    }
  }

  lemma PropertiesExact(values: Annotations, p: Provider, name: string, value: string)
    ensures
      Property(name, value) in PropertyList(PropertyMap(p, Relevant(values))) <==> PropertyIs(values, p, name, value)
  {
    var m := PropertyMap(p, Relevant(values));
    var names := SortedStrings(m.Keys);
    SortedStringsLists(m.Keys);
    DefaultsExact(p.defaults, name, value);
    hide IsRelevant, DefaultProperties, DefaultIs, SortedStrings;
    assert name in m && m[name] == value <==> PropertyIs(values, p, name, value);
    var list := PropertyList(m);
    if name in m && m[name] == value {
      assert name in names;
      var i :| 0 <= i < |names| && names[i] == name;
      assert list[i] == Property(name, value);
    }
    if Property(name, value) in list {
      var i :| 0 <= i < |list| && list[i] == Property(name, value);
      assert names[i] in names;
    }
  }

  /** Copied are the annotations under ExternalDNS's prefix, each with its value, and nothing else. */
  ghost predicate MetadataIs(values: Annotations, metadata: map<AnnotationKey, string>) {
    forall k ::
      && (k in metadata <==> k.ExternalDNS? && "external-dns.alpha.kubernetes.io/" + k.suffix in values)
      && (k in metadata && k.ExternalDNS? && "external-dns.alpha.kubernetes.io/" + k.suffix in values ==>
            metadata[k] == values["external-dns.alpha.kubernetes.io/" + k.suffix])
  }

  lemma MetadataExact(values: Annotations)
    ensures MetadataIs(values, Metadata(Relevant(values)))
  {
    hide Metadata, LABDNS;
    forall k | k in Metadata(Relevant(values)) || k.ExternalDNS?
      ensures k in Metadata(Relevant(values)) <==> k.ExternalDNS? && EXTERNAL_DNS + k.suffix in values
      ensures k in Metadata(Relevant(values)) ==> Metadata(Relevant(values))[k] == values[EXTERNAL_DNS + k.suffix]
    {
      MetadataAt(Relevant(values), k);
      assert k.ExternalDNS? ==> HasPrefix(EXTERNAL_DNS + k.suffix, EXTERNAL_DNS);
    }
  }

  /** THE SETTINGS of every publication, from the annotations and the fields of its provider. */
  ghost predicate SettingsAre(ps: Parsers, values: Annotations, p: Provider, pub: Publication) {
    && DelayIs(ps, values, p, pub.deletionDelay)
    && (forall r :: r in pub.records ==> TtlIs(ps, values, p, r.ttl))
    && (forall r, n, v :: r in pub.records ==> (Property(n, v) in r.properties <==> PropertyIs(values, p, n, v)))
    && MetadataIs(values, pub.metadata)
  }

  lemma NumbersExact(ps: Parsers, values: Annotations, p: Provider)
    requires Parse(ps, values).Some?
    ensures DelayIs(ps, values, p, DelayFor(p, Parse(ps, values).value))
    ensures TtlIs(ps, values, p, TtlFor(p, Parse(ps, values).value))
    ensures Parse(ps, values).value.resolved == Relevant(values)
  {
    hide SortedStrings, SortedFamilies, Tokens, NormalizeHostname, FamilyOf, TrimSpace;
  }

  lemma PublicationSettings(ps: Parsers, c: State, values: Annotations, n: string, p: Provider,
                            hosts: map<string, set<Name>>)
    requires Parse(ps, values).Some?
    ensures SettingsAre(ps, values, p, PublicationFor(c, n, p, Parse(ps, values).value, hosts))
  {
    hide Parse, RecordList, RecordIds, TargetsOf, SortedStrings, PropertyList, PropertyMap, DelayIs, TtlIs;
    hide PropertyIs, Relevant, Metadata, DelayFor, TtlFor, QueryFor;
    hide MetadataIs;
    var opts := Parse(ps, values).value;
    NumbersExact(ps, values, p);
    MetadataExact(values);
    var s := SettingsFor(p, opts);
    RecordListHas(QueryFor(p, opts), c, hosts, s);
    forall name, v ensures Property(name, v) in s.properties <==> PropertyIs(values, p, name, v) {
      PropertiesExact(values, p, name, v);
    }
  }

  lemma FinishSettings(ps: Parsers, c: State, values: Annotations, hosts: Option<map<string, set<Name>>>,
                       pubs: seq<Publication>, pub: Publication)
    requires Parse(ps, values).Some? && Finish(c, Parse(ps, values).value, hosts) == Some(pubs) && pub in pubs
    ensures pub.providerName in c.providers && SettingsAre(ps, values, c.providers[pub.providerName], pub)
  {
    hide Parse, Published, SettingsAre, PublicationFor;
    PublishedBy(c, Parse(ps, values).value, hosts.value, pubs, pub.providerName);
    PublicationSettings(ps, c, values, pub.providerName, c.providers[pub.providerName], hosts.value);
  }

  lemma IngressSettings(ps: Parsers, c: State, ns: string, ing: Ingress, values: Annotations, pubs: seq<Publication>,
                        pub: Publication)
    requires IngressAnnotations(c, ing) == Some(values) && IngressOutcome(ps, c, ns, ing) == Some(pubs) && pub in pubs
    ensures pub.providerName in c.providers && SettingsAre(ps, values, c.providers[pub.providerName], pub)
  {
    hide IngressOutcome, IngressAnnotations, Parse, Finish, SettingsAre;
    IngressFinish(ps, c, ns, ing, values);
    FinishSettings(ps, c, values, IngressHosts(ns, ing, Parse(ps, values).value.hostnames), pubs, pub);
  }

  lemma RouteSettings(ps: Parsers, c: State, ns: string, route: Route, values: Annotations, pubs: seq<Publication>,
                      pub: Publication)
    requires RouteAnnotations(c, ns, route) == Some(values) && RouteOutcome(ps, c, ns, route) == Some(pubs)
    requires pub in pubs
    ensures pub.providerName in c.providers && SettingsAre(ps, values, c.providers[pub.providerName], pub)
  {
    OutcomeIs(ps, c, ns, route);
    hide RouteOutcome, RouteAnnotations, Parse, Finish, SettingsAre;
    FinishSettings(ps, c, values, RouteHosts(c, ns, route, Parse(ps, values).value.hostnames), pubs, pub);
  }

  /** Providers alike in everything but the settings that the annotations override. */
  ghost predicate AlikeUnder(values: Annotations, p: Provider, q: Provider) {
    && q == p.(ttl := q.ttl, deletionDelay := q.deletionDelay)
    && (DELETION_DELAY !in values ==> q.deletionDelay == p.deletionDelay)
    && (TTL !in values ==> q.ttl == p.ttl)
  }

  /** Two states that differ only in provider settings the annotations override. */
  ghost predicate StatesUnder(values: Annotations, c: State, d: State) {
    && d == c.(providers := d.providers) && c.providers.Keys == d.providers.Keys
    && forall n :: n in c.providers ==> AlikeUnder(values, c.providers[n], d.providers[n])
  }

  ghost predicate QueriesAlike(q: Query, r: Query) {
    && q.families == r.families && q.provider.zones == r.provider.zones
    && q.provider.ipv4 == r.provider.ipv4 && q.provider.ipv6 == r.provider.ipv6
  }

  lemma QueryIds(q: Query, r: Query, c: State, hosts: map<string, set<Name>>)
    requires QueriesAlike(q, r)
    ensures AllResolve(q, c, hosts) <==> AllResolve(r, c, hosts)
    ensures RecordIds(q, c, hosts) == RecordIds(r, c, hosts)
    ensures forall id :: TargetsOf(q, c, hosts, id) == TargetsOf(r, c, hosts, id)
  {
    forall f, labels ensures Read(q.provider, f, labels) == Read(r.provider, f, labels) { }
    hide Read, ReadyNodes, InZones;
    forall b ensures Resolves(q, c, b) <==> Resolves(r, c, b) { }
    hide Resolves;
    forall f, backends ensures HostAddresses(q, c, f, backends) == HostAddresses(r, c, f, backends) {
      AddressesOfQuery(q, r, c, f, backends);
    }
    hide HostAddresses;
  }

  /** A query uses the zones, the labels and the families of its provider, nothing else. */
  lemma QueryAlike(q: Query, r: Query, c: State, hosts: map<string, set<Name>>, s: Settings)
    requires QueriesAlike(q, r)
    ensures AllResolve(q, c, hosts) <==> AllResolve(r, c, hosts)
    ensures RecordList(q, c, hosts, s) == RecordList(r, c, hosts, s)
  {
    hide AllResolve, RecordIds, TargetsOf, SortedStrings, StrictTotal, IdLess, QueriesAlike;
    QueryIds(q, r, c, hosts);
    assert StrictTotal(IdLess) by { Orders(); }
    var ids := SortSet(IdLess, RecordIds(q, c, hosts));
    forall i | 0 <= i < |ids| ensures RecordAt(q, c, hosts, s, ids[i]) == RecordAt(r, c, hosts, s, ids[i]) { }
    hide RecordAt;
    assert RecordList(q, c, hosts, s) == RecordList(r, c, hosts, s);
  }

  lemma AddressesOfQuery(q: Query, r: Query, c: State, f: Family, backends: set<Name>)
    requires forall labels :: Read(q.provider, f, labels) == Read(r.provider, f, labels)
    ensures HostAddresses(q, c, f, backends) == HostAddresses(r, c, f, backends)
  {
    hide Read, ReadyNodes;
    forall n ensures Supplied(q, c, f, n) == Supplied(r, c, f, n) { }
    hide Supplied;
    forall b ensures BackendAddresses(q, c, f, b) == BackendAddresses(r, c, f, b) { }
    hide BackendAddresses;
  }

  lemma NumbersUnder(ps: Parsers, values: Annotations, p: Provider, q: Provider)
    requires Parse(ps, values).Some? && AlikeUnder(values, p, q)
    ensures
      var opts := Parse(ps, values).value;
      DelayFor(p, opts) == DelayFor(q, opts) && TtlFor(p, opts) == TtlFor(q, opts)
  {
    hide SortedStrings, SortedFamilies, Tokens, NormalizeHostname, FamilyOf, TrimSpace;
  }

  lemma PublicationUnder(ps: Parsers, c: State, d: State, values: Annotations, n: string, hosts: map<string, set<Name>>)
    requires Parse(ps, values).Some? && StatesUnder(values, c, d) && n in c.providers
    ensures
      var opts := Parse(ps, values).value;
      var p, q := c.providers[n], d.providers[n];
      && (AllResolve(QueryFor(p, opts), c, hosts) <==> AllResolve(QueryFor(q, opts), d, hosts))
      && (AllResolve(QueryFor(p, opts), c, hosts) ==>
            PublicationFor(c, n, p, opts, hosts) == PublicationFor(d, n, q, opts, hosts))
  {
    var opts := Parse(ps, values).value;
    var p, q := c.providers[n], d.providers[n];
    NumbersUnder(ps, values, p, q);
    hide Parse, TtlFor, DelayFor, PropertyList, Metadata, AllResolve, RecordList;
    var s := SettingsFor(p, opts);
    assert s == SettingsFor(q, opts) by { assert PropertyMap(p, opts.resolved) == PropertyMap(q, opts.resolved); }
    QueryAlike(QueryFor(p, opts), QueryFor(q, opts), d, hosts, s);
    assert SameHosts(c, d, hosts) by { NothingReadDiffers(c, d, hosts); }
    HostsAlike(QueryFor(p, opts), c, d, hosts);
    if AllResolve(QueryFor(p, opts), c, hosts) {
      RecordsAlike(QueryFor(p, opts), c, d, hosts, s);
    }
  }

  lemma NothingReadDiffers(c: State, d: State, hosts: map<string, set<Name>>)
    requires d == c.(providers := d.providers)
    ensures SameHosts(c, d, hosts)
  {
    forall b ensures SameBackend(c, d, b) {
      assert ReadyNodes(c, b) == ReadyNodes(d, b);
    }
    hide SameBackend;
  }

  lemma PublishedUnder(ps: Parsers, c: State, d: State, values: Annotations, hosts: map<string, set<Name>>)
    requires Parse(ps, values).Some? && StatesUnder(values, c, d)
    ensures Published(c, Parse(ps, values).value, hosts) == Published(d, Parse(ps, values).value, hosts)
  {
    hide Parse, AllResolve, PublicationFor, QueryFor, SortedStrings, AlikeUnder, StrictlySorted, StringLess;
    var opts := Parse(ps, values).value;
    var names := SortedStrings(Selected(c, opts));
    SortedStringsLists(Selected(c, opts));
    assert Selected(c, opts) == Selected(d, opts);
    forall n | n in Selected(c, opts)
      ensures
        var p, q := ProviderAt(c, n), ProviderAt(d, n);
        && (AllResolve(QueryFor(p, opts), c, hosts) <==> AllResolve(QueryFor(q, opts), d, hosts))
        && (AllResolve(QueryFor(p, opts), c, hosts) ==>
              PublicationFor(c, n, p, opts, hosts) == PublicationFor(d, n, q, opts, hosts))
    {
      PublicationUnder(ps, c, d, values, n, hosts);
    }
    if Published(c, opts, hosts).Some? {
      var result := Published(c, opts, hosts).value;
      forall i | 0 <= i < |result|
        ensures result[i] == PublicationFor(d, names[i], ProviderAt(d, names[i]), opts, hosts)
      {
        assert names[i] in names;
      }
      PublishedIs(d, opts, hosts, result);
    }
  }

  /** OVERRIDDEN SETTINGS DO NOT MATTER: a provider's delay under a delay annotation, its TTL under a TTL
      annotation. */
  lemma IngressUnder(ps: Parsers, c: State, d: State, ns: string, ing: Ingress, values: Annotations)
    requires IngressAnnotations(c, ing) == Some(values) && StatesUnder(values, c, d)
    ensures IngressOutcome(ps, c, ns, ing) == IngressOutcome(ps, d, ns, ing)
  {
    assert IngressAnnotations(d, ing) == Some(values);
    hide IngressOutcome, IngressAnnotations, Parse, IngressHosts, Published, StatesUnder;
    IngressFinish(ps, c, ns, ing, values);
    IngressFinish(ps, d, ns, ing, values);
    if Parse(ps, values).Some? {
      var hosts := IngressHosts(ns, ing, Parse(ps, values).value.hostnames);
      if hosts.Some? { PublishedUnder(ps, c, d, values, hosts.value); }
    }
  }

  lemma RouteUnder(ps: Parsers, c: State, d: State, ns: string, route: Route, values: Annotations)
    requires RouteAnnotations(c, ns, route) == Some(values) && StatesUnder(values, c, d)
    ensures RouteOutcome(ps, c, ns, route) == RouteOutcome(ps, d, ns, route)
  {
    assert Chains(c, ns, route) == Chains(d, ns, route) by { hide Merged; }
    assert RouteBackends(c, ns, route) == RouteBackends(d, ns, route) by { hide Flatten, Permits; }
    hide Chains, Agreed, Merged, RouteBackends;
    assert RouteAnnotations(d, ns, route) == Some(values);
    hide RouteOutcome, RouteAnnotations, Parse, RouteHosts, Published, StatesUnder;
    OutcomeIs(ps, c, ns, route);
    OutcomeIs(ps, d, ns, route);
    if Parse(ps, values).Some? {
      var hosts := RouteHosts(c, ns, route, Parse(ps, values).value.hostnames);
      SameRouteHosts(c, d, ns, route, Parse(ps, values).value.hostnames);
      if hosts.Some? { PublishedUnder(ps, c, d, values, hosts.value); }
    }
  }

  /** Two states whose slices have the same endpoints that are not marked unready. */
  ghost predicate ReadyAlike(c: State, d: State) {
    && d == c.(slices := d.slices) && c.slices.Keys == d.slices.Keys
    && forall k :: k in c.slices ==> SameReady(c.slices[k], d.slices[k])
  }

  ghost predicate SameReady(s: Slice, t: Slice) {
    s.service == t.service && forall e: SliceEndpoint :: e.ready != Some(false) ==>
      (e in s.endpoints <==> e in t.endpoints)
  }

  lemma ReadyAlikeBackend(c: State, d: State, b: Name)
    requires ReadyAlike(c, d)
    ensures SameBackend(c, d, b)
  {
    forall n ensures n in ReadyNodes(c, b) <==> n in ReadyNodes(d, b) {
      ReadyNodesExact(c, b, n);
      ReadyNodesExact(d, b, n);
      hide ReadyNodes;
    }
    hide ReadyNodes;
    assert ReadyNodes(c, b) == ReadyNodes(d, b);
  }

  /** UNREADY ENDPOINTS DO NOT MATTER: adding, changing or removing them changes no publication. */
  lemma UnreadyIgnored(ps: Parsers, c: State, d: State, ns: string, ing: Ingress, route: Route)
    requires ReadyAlike(c, d)
    ensures IngressOutcome(ps, c, ns, ing) == IngressOutcome(ps, d, ns, ing)
    ensures RouteOutcome(ps, c, ns, route) == RouteOutcome(ps, d, ns, route)
  {
    hide SameBackend, SameReady;
    forall b ensures SameBackend(c, d, b) { ReadyAlikeBackend(c, d, b); }
    assert Chains(c, ns, route) == Chains(d, ns, route) by { hide Merged; }
    assert RouteBackends(c, ns, route) == RouteBackends(d, ns, route) by { hide Flatten, Permits; }
    hide IngressOutcome, RouteOutcome, Chains, RouteBackends, RouteAnnotations, IngressAnnotations, AllBackends;
    IngressAlike(ps, c, d, ns, ing);
    RouteAlike(ps, c, d, ns, route);
  }

  /** From the fields: the grant is about other routes, or about Services the route does not refer to. */
  ghost predicate OfOthers(g: Grant, ns: string, route: Route) {
    || (forall f :: f in g.from ==> f.namespace != ns || !Spells(route.kind, f.kind))
    || (forall t :: t in g.to ==>
          t.name.Some? && forall refs, ref :: refs in route.rules && ref in refs ==> ref.name != t.name.value)
  }

  lemma OthersOpenNothing(g: Grant, ns: string, route: Route, refs: seq<Ref>, ref: Ref)
    requires OfOthers(g, ns, route) && refs in route.rules && ref in refs
    ensures !Opens(g, route.kind, ns, ref.name)
  {
  }

  /** OTHER PEOPLE'S GRANTS DO NOT MATTER: a grant that is, before and after the change, about other namespaces or
      kinds, or names only Services the route does not refer to, changes neither its backends nor its
      publications. */
  lemma GrantOfOthers(ps: Parsers, c: State, d: State, key: Name, ns: string, route: Route)
    requires OnlyAt(c, d, GrantAt(key))
    requires key in c.grants ==> OfOthers(c.grants[key], ns, route)
    requires key in d.grants ==> OfOthers(d.grants[key], ns, route)
    ensures RouteBackends(c, ns, route) == RouteBackends(d, ns, route)
    ensures RouteOutcome(ps, c, ns, route) == RouteOutcome(ps, d, ns, route)
  {
    forall refs, ref | refs in route.rules && ref in refs
      ensures Allowed(c, route.kind, ns, ref) <==> Allowed(d, route.kind, ns, ref)
    {
      AllowedAlike(c, d, key, ns, route, refs, ref);
    }
    hide Allowed, OfOthers, OnlyAt;
    forall b ensures b in RouteBackends(c, ns, route) <==> b in RouteBackends(d, ns, route) {
      BackendsExact(c, ns, route, b);
      BackendsExact(d, ns, route, b);
      hide RouteBackends;
    }
    hide RouteBackends;
    assert RouteBackends(c, ns, route) == RouteBackends(d, ns, route);
    GrantReadsAlike(c, d, key, ns, route);
    hide RouteOutcome, Chains, RouteAnnotations, SameBackend, SameProvider;
    RouteAlike(ps, c, d, ns, route);
  }

  lemma GrantReadsAlike(c: State, d: State, key: Name, ns: string, route: Route)
    requires OnlyAt(c, d, GrantAt(key))
    ensures Chains(c, ns, route) == Chains(d, ns, route)
    ensures forall b :: SameBackend(c, d, b)
    ensures forall n :: SameProvider(c, d, n)
  {
    ChainsAlike(c, d, GrantAt(key), ns, route);
    forall b ensures SameBackend(c, d, b) { assert ReadyNodes(c, b) == ReadyNodes(d, b); }
  }

  lemma AllowedAlike(c: State, d: State, key: Name, ns: string, route: Route, refs: seq<Ref>, ref: Ref)
    requires OnlyAt(c, d, GrantAt(key)) && refs in route.rules && ref in refs
    requires key in c.grants ==> OfOthers(c.grants[key], ns, route)
    requires key in d.grants ==> OfOthers(d.grants[key], ns, route)
    ensures Allowed(c, route.kind, ns, ref) <==> Allowed(d, route.kind, ns, ref)
  {
    if key in c.grants { OthersOpenNothing(c.grants[key], ns, route, refs, ref); }
    if key in d.grants { OthersOpenNothing(d.grants[key], ns, route, refs, ref); }
    hide Opens, OfOthers;
    var target := if ref.namespace.Some? then ref.namespace.value else ns;
    forall k | k in c.grants && (k.namespace == target || target == "") && Opens(c.grants[k], route.kind, ns, ref.name)
      ensures k in d.grants && Opens(d.grants[k], route.kind, ns, ref.name)
    {
      assert k != key;
    }
    forall k | k in d.grants && (k.namespace == target || target == "") && Opens(d.grants[k], route.kind, ns, ref.name)
      ensures k in c.grants && Opens(c.grants[k], route.kind, ns, ref.name)
    {
      assert k != key;
    }
  }

  /** The class an Ingress names: its class name, or the legacy annotation when it has none. */
  predicate NamesClass(ing: Ingress, name: string) {
    && name != ""
    && (ing.className == Some(name)
        || (ing.className == None && LEGACY_CLASS in ing.annotations && ing.annotations[LEGACY_CLASS] == name))
  }

  /** What an Ingress inherits, from the fields. */
  lemma IngressInherits(c: State, ing: Ingress, name: string)
    ensures
      NamesClass(ing, name) ==>
        IngressAnnotations(c, ing) ==
        if name in c.ingressClasses then Some(Inherited(ing.annotations, c.ingressClasses[name])) else None
    ensures (forall n :: !NamesClass(ing, n)) ==> IngressAnnotations(c, ing) == Some(Inherited(ing.annotations, map[]))
  {
    assert ClassName(ing) != "" ==> NamesClass(ing, ClassName(ing));
  }

  /** The Gateway a parent reference names, if it is one. */
  predicate NamesGateway(ns: string, ref: Ref, key: Name) {
    && (ref.group == None || ref.group == Some("gateway.networking.k8s.io"))
    && (ref.kind == None || ref.kind == Some("Gateway"))
    && key == Name(if ref.namespace.Some? then ref.namespace.value else ns, ref.name)
  }

  /** What a route inherits, from the fields: from every Gateway it names, which must be there with its class, the
      same: key by key the route's own relevant value, else the Gateway's, else the class's. */
  lemma RouteInherits(c: State, ns: string, route: Route, values: Annotations, ref: Ref, key: Name)
    requires RouteAnnotations(c, ns, route) == Some(values) && ref in route.parents && NamesGateway(ns, ref, key)
    ensures key in c.gateways && c.gateways[key].className in c.gatewayClasses
    ensures
      var g := c.gateways[key];
      values == Inherited(route.annotations, Inherited(g.annotations, c.gatewayClasses[g.className]))
  {
    assert GatewayRef(ref) && RefName(ns, ref) == key;
    hide Merged, Inherited;
    assert Chain(c, ns, route, ref) in Chains(c, ns, route);
    AgreedIs(Chains(c, ns, route), values);
    var g := c.gateways[key];
    MergedThree(c.gatewayClasses[g.className], g.annotations, route.annotations);
  }

  lemma MergedThree(base: Annotations, middle: Annotations, own: Annotations)
    ensures Merged([base, middle, own]) == Inherited(own, Inherited(middle, base))
  {
    assert [base, middle, own][..2] == [base, middle];
    MergedInherits(base, middle);
    hide IsRelevant;
    var below := Inherited(middle, base);
    assert Merged([base, middle, own]) == below + Relevant(own);
    hide Merged;
  }
}
