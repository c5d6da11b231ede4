/** What a source publishes, from the fields of the objects alone, and what does not influence it. */
module SourceLaws {
  import opened Lifecycle
  import opened Ordering
  import opened Text
  import opened Endpoints
  import opened Objects
  import opened Names
  import opened Cluster
  import opened AnnotationText
  import opened Projection
  import opened Resolver
  import opened Publisher
  import opened Sources
  import opened ResolverLaws
  import opened Index

  /** From the annotations: the source is enabled. */
  predicate Enabled(values: Annotations) {
    ENABLED in values && TrimSpace(values[ENABLED]) in ["1", "t", "T", "TRUE", "true", "True"]
  }

  /** From the annotations: the family is asked for, or none is and the provider has a label for it. */
  ghost predicate Asks(values: Annotations, p: Provider, f: Family) {
    if FAMILIES in values && Tokens(values[FAMILIES]) != {} then
      exists t :: t in Tokens(values[FAMILIES]) && ToLower(t) == if f == IPv4 then "ipv4" else "ipv6"
    else LabelOf(p, f).Some?
  }

  /** The address is published for the hostname and family by the provider. */
  ghost predicate Publishes(pubs: seq<Publication>, p: string, h: string, f: Family, a: string) {
    exists pub, r ::
      && pub in pubs && pub.providerName == p && r in pub.records
      && r.dnsName == h && r.recordType == TypeName(f) && a in r.targets
  }

  lemma FamilyTexts(s: string, f: Family)
    ensures FamilyOf(s) == Some(f) <==> ToLower(s) == if f == IPv4 then "ipv4" else "ipv6"
  {
    assert "ipv4"[3] != "ipv6"[3];
  }

  lemma AsksExact(ps: Parsers, values: Annotations, p: Provider, f: Family)
    requires Parse(ps, values).Some?
    ensures f in FamiliesFor(p, Parse(ps, values).value.families) <==> Asks(values, p, f)
  {
    hide Tokens, SortedStrings, NormalizeHostname, ToLower;
    var items := ItemsAt(values, FAMILIES);
    var asked := set t | t in items :: FamilyOf(t).value;
    assert Parse(ps, values).value.families == SortedFamilies(asked);
    SortSetSorts(FamilyLess, asked);
    forall t ensures FamilyOf(t) == Some(f) <==> ToLower(t) == if f == IPv4 then "ipv4" else "ipv6" {
      FamilyTexts(t, f);
    }
    hide FamilyOf, Parse;
    assert SortedFamilies(asked) == [] <==> items == {} by {
      if items != {} {
        var t :| t in items;
        assert FamilyOf(t).value in asked;
      }
    }
    assert f in asked <==> exists t :: t in items && FamilyOf(t) == Some(f);
  }

  lemma PublishedBy(c: State, opts: Parsed, hosts: map<string, set<Name>>, pubs: seq<Publication>, p: string)
    requires Published(c, opts, hosts) == Some(pubs)
    ensures
      (exists pub :: pub in pubs && pub.providerName == p) <==> p in opts.providers && p in c.providers
    ensures
      forall pub :: pub in pubs && pub.providerName == p ==>
        p in c.providers && pub == PublicationFor(c, p, c.providers[p], opts, hosts)
  {
    hide AllResolve, SortedStrings, RecordList, Metadata, PropertyList, PropertyMap;
    var names := SortedStrings(Selected(c, opts));
    SortedStringsLists(Selected(c, opts));
    forall pub | pub in pubs && pub.providerName == p
      ensures p in Selected(c, opts) && pub == PublicationFor(c, p, c.providers[p], opts, hosts)
    {
      var i :| 0 <= i < |pubs| && pubs[i] == pub;
      assert names[i] in names;
    }
    if p in Selected(c, opts) {
      assert p in names;
      var i :| 0 <= i < |names| && names[i] == p;
      assert pubs[i].providerName == p && pubs[i] in pubs;
    }
  }

  lemma RecordReached(q: Query, c: State, hosts: map<string, set<Name>>, s: Settings, h: string, f: Family, a: string)
    ensures
      (exists r :: r in RecordList(q, c, hosts, s) && r.dnsName == h && r.recordType == TypeName(f)
          && a in r.targets) <==>
        && f in q.families && h in hosts && InZones(h, q.provider.zones)
        && Reached(c, q.provider, f, hosts[h], a)
  {
    hide InZones, RecordList, Reached, StringLess, StrictlySorted;
    assert TypeName(IPv4) != TypeName(IPv6) by { assert |TypeName(IPv4)| == 1 && |TypeName(IPv6)| == 4; }
    var list := RecordList(q, c, hosts, s);
    var id := RecordId(h, TypeName(f));
    forall r | r in list && r.dnsName == h && r.recordType == TypeName(f) ensures h in hosts && f in q.families {
      RecordKnown(q, c, hosts, s, r);
      var g :| g in q.families && r.recordType == TypeName(g);
      assert g == f;
    }
    if h in hosts && f in q.families {
      RecordExact(q, c, hosts, s, h, f);
      if InZones(h, q.provider.zones) && Reached(c, q.provider, f, hosts[h], a) {
        var r :| r in list && IdOf(r) == id;
      }
      forall r | r in list && r.dnsName == h && r.recordType == TypeName(f) && a in r.targets
        ensures InZones(h, q.provider.zones) && Reached(c, q.provider, f, hosts[h], a)
      {
        assert IdOf(r) == id;
      }
    }
  }

  lemma RecordKnown(q: Query, c: State, hosts: map<string, set<Name>>, s: Settings, r: Record)
    requires r in RecordList(q, c, hosts, s)
    ensures r.dnsName in hosts && exists g :: g in q.families && r.recordType == TypeName(g)
  {
    RecordListHas(q, c, hosts, s);
    hide RecordList, InZones, HostAddresses;
    var h, f :| h in hosts && f in q.families && IdOf(r) == RecordId(h, TypeOf(f));
    assert TypeName(IPv4) == TypeOf(IPv4) && TypeName(IPv6) == TypeOf(IPv6);
  }

  /** What is published for a map of hostnames, from the annotations and the fields. */
  lemma TargetExact(ps: Parsers, c: State, values: Annotations, hosts: Option<map<string, set<Name>>>,
                    pubs: seq<Publication>, p: string, h: string, f: Family, a: string)
    requires Parse(ps, values).Some? && Finish(c, Parse(ps, values).value, hosts) == Some(pubs)
    ensures
      Publishes(pubs, p, h, f, a) <==>
        && Enabled(values) && PROVIDERS in values && p in Tokens(values[PROVIDERS]) && p in c.providers
        && Asks(values, c.providers[p], f)
        && hosts.Some? && h in hosts.value && InZones(h, c.providers[p].zones)
        && Reached(c, c.providers[p], f, hosts.value[h], a)
  {
    var opts := Parse(ps, values).value;
    OptionProviders(ps, values);
    EnabledExact(ps, values);
    if p in c.providers { AsksExact(ps, values, c.providers[p], f); }
    hide Parse, Tokens, Asks, InZones, Reached, FamiliesFor, Enabled;
    if opts.enabled && opts.providers != [] {
      PublishedBy(c, opts, hosts.value, pubs, p);
      hide Published;
      if p in c.providers {
        RecordReached(QueryFor(c.providers[p], opts), c, hosts.value, SettingsFor(c.providers[p], opts), h, f, a);
        hide RecordList;
      }
    }
  }

  lemma EnabledExact(ps: Parsers, values: Annotations)
    requires Parse(ps, values).Some?
    ensures Parse(ps, values).value.enabled <==> Enabled(values)
  {
    hide SortedStrings, SortedFamilies, Tokens, NormalizeHostname, FamilyOf;
  }

  predicate Overridden(values: Annotations) { HOSTNAMES in values && Tokens(values[HOSTNAMES]) != {} }

  /** From the annotations: the hostname is one of the overrides. */
  ghost predicate Overrides(values: Annotations, h: string) {
    HOSTNAMES in values && exists t :: t in Tokens(values[HOSTNAMES]) && NormalizeHostname(t) == Some(h)
  }

  lemma OverridesExact(ps: Parsers, values: Annotations, h: string)
    requires Parse(ps, values).Some?
    ensures
      var hostnames := Parse(ps, values).value.hostnames;
      (hostnames != [] <==> Overridden(values)) && (h in hostnames <==> Overrides(values, h))
  {
    hide Tokens, SortedFamilies, NormalizeHostname, FamilyOf;
    var items := ItemsAt(values, HOSTNAMES);
    var names := set t | t in items :: NormalizeHostname(t).value;
    assert Parse(ps, values).value.hostnames == SortedStrings(names);
    SortedStringsLists(names);
    hide Parse, SortedStrings;
    if items != {} {
      var t :| t in items;
      assert NormalizeHostname(t).value in names;
    }
    assert h in names <==> exists t :: t in items && NormalizeHostname(t) == Some(h);
  }

  /** From the fields: the Ingress serves the hostname with the service. */
  ghost predicate ServesHost(ing: Ingress, values: Annotations, h: string, service: string) {
    if Overridden(values) then
      Overrides(values, h) && (ing.defaultService == Some(service) || AnyRuleNames(ing, service))
    else
      || RuleNames(ing, h, service)
      || (ing.defaultService == Some(service) && TlsNames(ing, h) && !HasRule(ing, h))
  }

  /** From the fields: the address is on a node with a ready endpoint of a service of the hostname. */
  ghost predicate IngressReaches(c: State, p: Provider, f: Family, ns: string, ing: Ingress, values: Annotations,
                                 h: string, a: string)
  {
    exists service ::
      service != "" && ServesHost(ing, values, h, service) && OnReadyNode(c, p, f, Name(ns, service), a)
  }

  lemma IngressReached(c: State, p: Provider, f: Family, ns: string, ing: Ingress, values: Annotations,
                       overrides: seq<string>, hosts: map<string, set<Name>>, h: string, a: string)
    requires IngressHosts(ns, ing, overrides) == Some(hosts)
    requires (overrides != [] <==> Overridden(values)) && (h in overrides <==> Overrides(values, h))
    ensures (h in hosts && Reached(c, p, f, hosts[h], a)) <==> IngressReaches(c, p, f, ns, ing, values, h, a)
  {
    hide IngressHosts, OnReadyNode, Overridden, Overrides;
    forall b: Name
      ensures (h in hosts && b in hosts[h]) <==> b.namespace == ns && b.name != "" && ServesHost(ing, values, h, b.name)
    {
      IngressHostsExact(ns, ing, overrides, h, b);
    }
    hide ServesHost;
    if IngressReaches(c, p, f, ns, ing, values, h, a) {
      var service :|
        service != "" && ServesHost(ing, values, h, service) && OnReadyNode(c, p, f, Name(ns, service), a);
      assert Name(ns, service).name == service;
    }
    if h in hosts && Reached(c, p, f, hosts[h], a) {
      var b :| b in hosts[h] && OnReadyNode(c, p, f, b, a);
      assert b == Name(ns, b.name);
    }
  }

  lemma IngressFinish(ps: Parsers, c: State, ns: string, ing: Ingress, values: Annotations)
    requires IngressAnnotations(c, ing) == Some(values)
    ensures
      var opts := Parse(ps, values);
      IngressOutcome(ps, c, ns, ing) ==
      if opts.None? then None else Finish(c, opts.value, IngressHosts(ns, ing, opts.value.hostnames))
  {
    hide Parse, Finish, IngressHosts;
  }

  /** A source that selects a provider and gives publications has valid hostnames. */
  lemma HostsKnown(ps: Parsers, c: State, values: Annotations, hosts: Option<map<string, set<Name>>>, p: string)
    requires Parse(ps, values).Some? && Finish(c, Parse(ps, values).value, hosts).Some?
    requires Enabled(values) && PROVIDERS in values && p in Tokens(values[PROVIDERS])
    ensures hosts.Some?
  {
    OptionProviders(ps, values);
    EnabledExact(ps, values);
    hide Parse, Published, Enabled, Tokens;
    assert p in Parse(ps, values).value.providers;
  }

  /** WHAT AN INGRESS PUBLISHES, from its fields, its annotations and the fields of the objects of the cluster:
      the exact set of (provider, hostname, family, address). */
  lemma IngressTarget(ps: Parsers, c: State, ns: string, ing: Ingress, values: Annotations, pubs: seq<Publication>,
                      p: string, h: string, f: Family, a: string)
    requires IngressAnnotations(c, ing) == Some(values) && IngressOutcome(ps, c, ns, ing) == Some(pubs)
    ensures
      Publishes(pubs, p, h, f, a) <==>
        && Enabled(values) && PROVIDERS in values && p in Tokens(values[PROVIDERS]) && p in c.providers
        && Asks(values, c.providers[p], f) && InZones(h, c.providers[p].zones)
        && IngressReaches(c, c.providers[p], f, ns, ing, values, h, a)
  {
    IngressFinish(ps, c, ns, ing, values);
    hide IngressOutcome, IngressAnnotations, Parse, IngressHosts, Tokens, Enabled, Asks, InZones, Reached;
    hide IngressReaches;
    hide Publishes, Published;
    var opts := Parse(ps, values).value;
    var hosts := IngressHosts(ns, ing, opts.hostnames);
    TargetExact(ps, c, values, hosts, pubs, p, h, f, a);
    OverridesExact(ps, values, h);
    hide Finish;
    if Enabled(values) && PROVIDERS in values && p in Tokens(values[PROVIDERS]) {
      HostsKnown(ps, c, values, hosts, p);
    }
    if hosts.Some? && p in c.providers {
      IngressReached(c, c.providers[p], f, ns, ing, values, opts.hostnames, hosts.value, h, a);
    }
  }

  /** From the fields: the hostname is an override, or without overrides an own one of an HTTPRoute. */
  ghost predicate RouteNames(route: Route, values: Annotations, h: string) {
    if Overridden(values) then Overrides(values, h)
    else route.kind == HTTPRoute && exists raw :: raw in route.hostnames && NormalizeHostname(raw) == Some(h)
  }

  ghost predicate RouteReaches(c: State, p: Provider, f: Family, ns: string, route: Route, a: string) {
    exists b :: RefersTo(c, ns, route, b) && OnReadyNode(c, p, f, b, a)
  }

  lemma RouteReached(c: State, p: Provider, f: Family, ns: string, route: Route, values: Annotations,
                     overrides: seq<string>, hosts: map<string, set<Name>>, h: string, a: string)
    requires RouteHosts(c, ns, route, overrides) == Some(hosts)
    requires (overrides != [] <==> Overridden(values)) && (h in overrides <==> Overrides(values, h))
    ensures
      (h in hosts && Reached(c, p, f, hosts[h], a)) <==>
        RouteNames(route, values, h) && RouteReaches(c, p, f, ns, route, a)
  {
    hide RouteHosts, OnReadyNode, Overridden, Overrides, RefersTo, NormalizeHostname;
    forall b: Name
      ensures (h in hosts && b in hosts[h]) <==> RefersTo(c, ns, route, b) && RouteNames(route, values, h)
    {
      RouteHostsExact(c, ns, route, overrides, h, b);
    }
    hide RouteNames;
  }

  /** WHAT A ROUTE PUBLISHES, from the fields. */
  lemma RouteTarget(ps: Parsers, c: State, ns: string, route: Route, values: Annotations, pubs: seq<Publication>,
                    p: string, h: string, f: Family, a: string)
    requires RouteAnnotations(c, ns, route) == Some(values) && RouteOutcome(ps, c, ns, route) == Some(pubs)
    ensures
      Publishes(pubs, p, h, f, a) <==>
        && Enabled(values) && PROVIDERS in values && p in Tokens(values[PROVIDERS]) && p in c.providers
        && Asks(values, c.providers[p], f) && InZones(h, c.providers[p].zones)
        && RouteNames(route, values, h) && RouteReaches(c, c.providers[p], f, ns, route, a)
  {
    OutcomeIs(ps, c, ns, route);
    hide RouteOutcome, RouteAnnotations, Parse, RouteHosts, Tokens, Enabled, Asks, InZones, Reached, RouteReaches;
    hide Publishes, Published, RouteNames;
    var opts := Parse(ps, values).value;
    var hosts := RouteHosts(c, ns, route, opts.hostnames);
    TargetExact(ps, c, values, hosts, pubs, p, h, f, a);
    OverridesExact(ps, values, h);
    hide Finish;
    if Enabled(values) && PROVIDERS in values && p in Tokens(values[PROVIDERS]) {
      HostsKnown(ps, c, values, hosts, p);
    }
    if hosts.Some? && p in c.providers {
      RouteReached(c, c.providers[p], f, ns, route, values, opts.hostnames, hosts.value, h, a);
    }
  }
}
