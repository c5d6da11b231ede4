/** When a source is refused, from the fields of the objects alone: malformed annotations, a class or Gateway
    that is missing, a hostname that is none, or a backend that cannot be resolved. */
module Refusal {
  import opened Lifecycle
  import opened Ordering
  import opened Text
  import opened Objects
  import opened Names
  import opened Cluster
  import opened AnnotationText
  import opened Projection
  import opened Resolver
  import opened Publisher
  import opened Sources
  import opened Index
  import opened SourceLaws
  import opened Influence

  ghost predicate HasItem(values: Annotations, key: string, t: string) { key in values && t in Tokens(values[key]) }

  ghost predicate BadProvider(values: Annotations) {
    exists t :: HasItem(values, PROVIDERS, t) && (|t| > 63 || !Subdomain(t))
  }

  ghost predicate BadOverride(values: Annotations) {
    exists t :: HasItem(values, HOSTNAMES, t) && NormalizeHostname(t).None?
  }

  ghost predicate BadFamily(values: Annotations) {
    exists t :: HasItem(values, FAMILIES, t) && ToLower(t) !in ["ipv4", "ipv6"]
  }

  /** From the texts: some annotation cannot be read. */
  ghost predicate Misspelt(ps: Parsers, values: Annotations) {
    || (ENABLED in values && TrimSpace(values[ENABLED]) !in
        ["1", "t", "T", "TRUE", "true", "True", "0", "f", "F", "FALSE", "false", "False"])
    || BadProvider(values) || BadOverride(values) || BadFamily(values)
    || (TTL in values && (var n := ps.int64(TrimSpace(values[TTL])); n.None? || n.value < 1 || n.value > 2147483647))
    || (DELETION_DELAY in values &&
        (var n := ps.duration(TrimSpace(values[DELETION_DELAY])); n.None? || n.value < 0))
  }

  lemma SwitchRefuses(values: Annotations)
    ensures
      EnabledOf(values).None? <==>
        ENABLED in values && TrimSpace(values[ENABLED]) !in
          ["1", "t", "T", "TRUE", "true", "True", "0", "f", "F", "FALSE", "false", "False"]
  {
    hide TrimSpace;
  }

  lemma FamilyRefuses(t: string)
    ensures FamilyOf(t).None? <==> ToLower(t) !in ["ipv4", "ipv6"]
  {
    hide ToLower;
  }

  lemma NumbersRefuse(ps: Parsers, values: Annotations)
    ensures
      TtlOf(ps, values).None? <==>
        TTL in values && (var n := ps.int64(TrimSpace(values[TTL])); n.None? || n.value < 1 || n.value > 2147483647)
    ensures
      DelayOf(ps, values).None? <==>
        DELETION_DELAY in values && (var n := ps.duration(TrimSpace(values[DELETION_DELAY])); n.None? || n.value < 0)
  {
    hide TrimSpace;
  }

  lemma ItemsRefuse(values: Annotations)
    ensures
      && ((forall t :: t in ItemsAt(values, PROVIDERS) ==> GoodProvider(t)) <==> !BadProvider(values))
      && ((forall t :: t in ItemsAt(values, HOSTNAMES) ==> NormalizeHostname(t).Some?) <==> !BadOverride(values))
      && ((forall t :: t in ItemsAt(values, FAMILIES) ==> FamilyOf(t).Some?) <==> !BadFamily(values))
  {
    hide FamilyOf, Tokens, NormalizeHostname, Subdomain, ToLower;
    forall t ensures FamilyOf(t).None? <==> ToLower(t) !in ["ipv4", "ipv6"] { FamilyRefuses(t); }
    assert forall key, t :: t in ItemsAt(values, key) <==> HasItem(values, key, t);
    hide HasItem, ItemsAt;
  }

  lemma ParseRefuses(ps: Parsers, values: Annotations)
    ensures Parse(ps, values).None? <==> Misspelt(ps, values)
  {
    ParseOnly(ps, values);
    SwitchRefuses(values);
    NumbersRefuse(ps, values);
    ItemsRefuse(values);
    hide Parse, EnabledOf, TtlOf, DelayOf, TrimSpace, BadProvider, BadOverride, BadFamily;
  }

  lemma ParseOnly(ps: Parsers, values: Annotations)
    ensures Parse(ps, values).None? <==> !Acceptable(ps, values)
  {
    hide SortedStrings, SortedFamilies, TtlOf, DelayOf, EnabledOf, ItemsAt, NormalizeHostname, FamilyOf, GoodProvider;
  }

  /** From the fields: the Service is missing, or a node of its ready endpoints is, or such a node carries a
      label of an asked family that is no address. */
  ghost predicate Broken(c: State, values: Annotations, p: Provider, b: Name) {
    || b !in c.services
    || exists n ::
         && HasReadyEndpoint(c, b, n)
         && (n !in c.nodes || exists f :: Asks(values, p, f) && Unparsable(p, f, c.nodes[n]))
  }

  lemma BrokenExact(ps: Parsers, c: State, values: Annotations, p: Provider, b: Name)
    requires Parse(ps, values).Some?
    ensures Resolves(QueryFor(p, Parse(ps, values).value), c, b) <==> !Broken(c, values, p, b)
  {
    var q := QueryFor(p, Parse(ps, values).value);
    ResolvesExact(q, c, b);
    hide Parse, FamiliesFor, HasReadyEndpoint, Unparsable, Asks, Resolves;
    forall f ensures f in q.families <==> Asks(values, p, f) { AsksExact(ps, values, p, f); }
  }

  /** From the fields: the provider has a hostname in its zones with a broken backend. */
  ghost predicate ObstructedFor(c: State, values: Annotations, hosts: map<string, set<Name>>, p: string)
    requires p in c.providers
  {
    exists h, b ::
      h in hosts && InZones(h, c.providers[p].zones) && b in hosts[h] && Broken(c, values, c.providers[p], b)
  }

  ghost predicate Obstructed(c: State, values: Annotations, hosts: map<string, set<Name>>) {
    exists p :: HasItem(values, PROVIDERS, p) && p in c.providers && ObstructedFor(c, values, hosts, p)
  }

  ghost predicate Selects(values: Annotations) { exists p :: HasItem(values, PROVIDERS, p) }

  /** From the fields: a used rule has a host that is no hostname, or without overrides a TLS host is none. */
  ghost predicate BadHostname(ing: Ingress, values: Annotations) {
    || (exists r :: r in ing.rules && r.host != "" && r.paths.Some? && NormalizeHostname(r.host).None?)
    || (!Overridden(values)
        && exists hosts, raw :: hosts in ing.tls && raw in hosts && NormalizeHostname(raw).None?)
  }

  /** From the fields: a selected provider has a hostname of the Ingress in its zones with a broken service. */
  ghost predicate IngressBroken(c: State, ns: string, ing: Ingress, values: Annotations) {
    exists p, h, service ::
      && HasItem(values, PROVIDERS, p) && p in c.providers && InZones(h, c.providers[p].zones)
      && service != "" && ServesHost(ing, values, h, service)
      && Broken(c, values, c.providers[p], Name(ns, service))
  }

  lemma IngressHostsNone(ns: string, ing: Ingress, values: Annotations, overrides: seq<string>)
    requires overrides != [] <==> Overridden(values)
    ensures IngressHosts(ns, ing, overrides).None? <==> BadHostname(ing, values)
  {
    hide Overridden, NormalizeHostname, AllBackends, HostBackends, RuleHosts, TlsHosts;
  }

  lemma IngressHostsRefused(ps: Parsers, c: State, ns: string, ing: Ingress, values: Annotations)
    requires Parse(ps, values).Some?
    ensures
      var hosts := IngressHosts(ns, ing, Parse(ps, values).value.hostnames);
      && (hosts.None? <==> BadHostname(ing, values))
      && (hosts.Some? ==> (Obstructed(c, values, hosts.value) <==> IngressBroken(c, ns, ing, values)))
  {
    hide Parse, Overridden, Overrides, Tokens, IngressHosts, BadHostname, Obstructed, IngressBroken;
    var overrides := Parse(ps, values).value.hostnames;
    var hosts := IngressHosts(ns, ing, overrides);
    forall h ensures (overrides != [] <==> Overridden(values)) && (h in overrides <==> Overrides(values, h)) {
      OverridesExact(ps, values, h);
    }
    OverridesExact(ps, values, "");
    IngressHostsNone(ns, ing, values, overrides);
    if hosts.Some? {
      forall h, b: Name
        ensures (h in hosts.value && b in hosts.value[h]) <==>
          b.namespace == ns && b.name != "" && ServesHost(ing, values, h, b.name)
      {
        IngressHostsExact(ns, ing, overrides, h, b);
      }
      hide ServesHost;
      ObstructedIs(c, ns, ing, values, hosts.value);
    }
  }

  lemma ObstructedIs(c: State, ns: string, ing: Ingress, values: Annotations, hosts: map<string, set<Name>>)
    requires
      forall h, b: Name :: (h in hosts && b in hosts[h]) <==>
        b.namespace == ns && b.name != "" && ServesHost(ing, values, h, b.name)
    ensures Obstructed(c, values, hosts) <==> IngressBroken(c, ns, ing, values)
  {
    hide InZones, Broken, ServesHost, HasItem;
    if Obstructed(c, values, hosts) {
      var p :| HasItem(values, PROVIDERS, p) && p in c.providers && ObstructedFor(c, values, hosts, p);
      var h, b :|
        h in hosts && InZones(h, c.providers[p].zones) && b in hosts[h] && Broken(c, values, c.providers[p], b);
      assert b == Name(ns, b.name);
    }
    if IngressBroken(c, ns, ing, values) {
      var p, h, service :|
        && HasItem(values, PROVIDERS, p) && p in c.providers && InZones(h, c.providers[p].zones)
        && service != "" && ServesHost(ing, values, h, service)
        && Broken(c, values, c.providers[p], Name(ns, service));
      var b := Name(ns, service);
      assert h in hosts && b in hosts[h];
    }
  }

  lemma PublishedRefuses(ps: Parsers, c: State, values: Annotations, hosts: map<string, set<Name>>)
    requires Parse(ps, values).Some?
    ensures Published(c, Parse(ps, values).value, hosts).None? <==> Obstructed(c, values, hosts)
  {
    var opts := Parse(ps, values).value;
    OptionProviders(ps, values);
    hide Parse, InZones, Broken, Resolves, PublicationFor, SortedStrings, Tokens, QueryFor;
    forall p ensures p in Selected(c, opts) <==> HasItem(values, PROVIDERS, p) && p in c.providers { }
    forall p | p in Selected(c, opts)
      ensures AllResolve(QueryFor(ProviderAt(c, p), opts), c, hosts) <==> !ObstructedFor(c, values, hosts, p)
    {
      ProviderRefuses(ps, c, values, hosts, p);
    }
    hide AllResolve, ObstructedFor, HasItem, Selected;
  }

  lemma ProviderRefuses(ps: Parsers, c: State, values: Annotations, hosts: map<string, set<Name>>, p: string)
    requires Parse(ps, values).Some? && p in c.providers
    ensures
      AllResolve(QueryFor(ProviderAt(c, p), Parse(ps, values).value), c, hosts) <==>
      !ObstructedFor(c, values, hosts, p)
  {
    var q := QueryFor(c.providers[p], Parse(ps, values).value);
    assert q.provider == c.providers[p];
    hide Parse, InZones, Broken, Resolves, QueryFor;
    forall b ensures Resolves(q, c, b) <==> !Broken(c, values, c.providers[p], b) {
      BrokenExact(ps, c, values, c.providers[p], b);
    }
  }

  /** What is published for a map of hostnames is refused exactly when the source is enabled, selects a provider
      and either has no valid hostnames or is obstructed. */
  lemma FinishRefuses(ps: Parsers, c: State, values: Annotations, hosts: Option<map<string, set<Name>>>)
    requires Parse(ps, values).Some?
    ensures
      Finish(c, Parse(ps, values).value, hosts).None? <==>
        Enabled(values) && Selects(values) && (hosts.None? || Obstructed(c, values, hosts.value))
  {
    var opts := Parse(ps, values).value;
    OptionProviders(ps, values);
    EnabledExact(ps, values);
    if hosts.Some? { PublishedRefuses(ps, c, values, hosts.value); }
    hide Parse, Published, Obstructed, Enabled, Tokens;
    assert forall p :: p in opts.providers <==> HasItem(values, PROVIDERS, p);
    hide HasItem, ProviderTokens;
    assert opts.providers != [] <==> Selects(values) by {
      if opts.providers != [] { assert opts.providers[0] in opts.providers; }
    }
  }

  /** AN INGRESS IS REFUSED exactly when its class is missing, an annotation cannot be read, or (being enabled
      and selecting a provider) it has an invalid hostname where it needs one or a broken backend. */
  lemma IngressRefused(ps: Parsers, c: State, ns: string, ing: Ingress)
    ensures
      IngressOutcome(ps, c, ns, ing).None? <==>
        || (exists name :: NamesClass(ing, name) && name !in c.ingressClasses)
        || (exists values ::
              && IngressAnnotations(c, ing) == Some(values)
              && (|| Misspelt(ps, values)
                  || (Enabled(values) && Selects(values)
                      && (BadHostname(ing, values) || IngressBroken(c, ns, ing, values)))))
  {
    ClassMissing(c, ing);
    if IngressAnnotations(c, ing).Some? {
      var values := IngressAnnotations(c, ing).value;
      IngressFinish(ps, c, ns, ing, values);
      ParseRefuses(ps, values);
      hide IngressOutcome, Parse, Misspelt, Finish, NamesClass, IngressAnnotations;
      if Parse(ps, values).Some? {
        var hosts := IngressHosts(ns, ing, Parse(ps, values).value.hostnames);
        FinishRefuses(ps, c, values, hosts);
        IngressHostsRefused(ps, c, ns, ing, values);
      }
    }
  }

  lemma ClassMissing(c: State, ing: Ingress)
    ensures
      IngressAnnotations(c, ing).None? <==> exists name :: NamesClass(ing, name) && name !in c.ingressClasses
  {
    if ClassName(ing) != "" {
      assert NamesClass(ing, ClassName(ing));
    }
  }

  /** A Gateway the route names. */
  ghost predicate Parent(ns: string, route: Route, key: Name) {
    exists ref :: ref in route.parents && NamesGateway(ns, ref, key)
  }

  predicate Known(c: State, key: Name) { key in c.gateways && c.gateways[key].className in c.gatewayClasses }

  function InheritedFrom(c: State, route: Route, key: Name): Annotations
    requires Known(c, key)
  {
    var g := c.gateways[key];
    Inherited(route.annotations, Inherited(g.annotations, c.gatewayClasses[g.className]))
  }

  /** From the fields: a Gateway of the route or its class is missing, or two Gateways give it different
      annotations. */
  ghost predicate Disagree(c: State, ns: string, route: Route) {
    || (exists key :: Parent(ns, route, key) && !Known(c, key))
    || (exists j, k ::
          && Parent(ns, route, j) && Parent(ns, route, k) && Known(c, j) && Known(c, k)
          && InheritedFrom(c, route, j) != InheritedFrom(c, route, k))
  }

  function ChainAt(c: State, route: Route, key: Name): Option<Annotations> {
    if Known(c, key) then Some(InheritedFrom(c, route, key)) else None
  }

  lemma ChainIs(c: State, ns: string, route: Route, ref: Ref, key: Name)
    requires NamesGateway(ns, ref, key)
    ensures GatewayRef(ref) && Chain(c, ns, route, ref) == ChainAt(c, route, key)
  {
    hide Merged, Inherited;
    if Known(c, key) {
      var g := c.gateways[key];
      MergedThree(c.gatewayClasses[g.className], g.annotations, route.annotations);
    }
  }

  lemma ChainsAre(c: State, ns: string, route: Route, a: Option<Annotations>)
    ensures a in Chains(c, ns, route) <==> exists key :: Parent(ns, route, key) && a == ChainAt(c, route, key)
  {
    hide ChainAt, Chain, Inherited;
    if a in Chains(c, ns, route) {
      var ref :| ref in route.parents && GatewayRef(ref) && a == Chain(c, ns, route, ref);
      var key := RefName(ns, ref);
      assert NamesGateway(ns, ref, key);
      ChainIs(c, ns, route, ref, key);
      assert Parent(ns, route, key);
    }
    if key :| Parent(ns, route, key) && a == ChainAt(c, route, key) {
      var ref :| ref in route.parents && NamesGateway(ns, ref, key);
      ChainIs(c, ns, route, ref, key);
    }
  }

  lemma Singleton(chains: set<Option<Annotations>>)
    ensures
      chains != {} && Agreed(chains).None? <==>
        None in chains || exists x, y :: x in chains && y in chains && x != y
  {
    forall a ensures Agreed(chains) == Some(a) <==> chains == {Some(a)} { AgreedIs(chains, a); }
    hide Agreed;
    if chains != {} && None !in chains && forall x, y :: x in chains && y in chains ==> x == y {
      var x :| x in chains;
      assert chains == {Some(x.value)};
    }
    if Agreed(chains).Some? {
      assert chains == {Some(Agreed(chains).value)};
    }
  }

  ghost predicate AreChains(c: State, ns: string, route: Route, chains: set<Option<Annotations>>) {
    forall a :: a in chains <==> exists key :: Parent(ns, route, key) && a == ChainAt(c, route, key)
  }

  lemma DisagreeSplits(c: State, ns: string, route: Route, chains: set<Option<Annotations>>)
    requires AreChains(c, ns, route, chains) && Disagree(c, ns, route)
    ensures None in chains || exists x, y :: x in chains && y in chains && x != y
  {
    hide Parent, Known, InheritedFrom;
    if exists key :: Parent(ns, route, key) && !Known(c, key) {
      var key :| Parent(ns, route, key) && !Known(c, key);
      assert ChainAt(c, route, key) in chains;
    } else {
      var j, k :|
        && Parent(ns, route, j) && Parent(ns, route, k) && Known(c, j) && Known(c, k)
        && InheritedFrom(c, route, j) != InheritedFrom(c, route, k);
      assert ChainAt(c, route, j) in chains && ChainAt(c, route, k) in chains;
    }
  }

  lemma SplitDisagrees(c: State, ns: string, route: Route, chains: set<Option<Annotations>>)
    requires AreChains(c, ns, route, chains)
    requires None in chains || exists x, y :: x in chains && y in chains && x != y
    ensures Disagree(c, ns, route)
  {
    hide Parent, Known, InheritedFrom;
    if None in chains {
      var key :| Parent(ns, route, key) && None == ChainAt(c, route, key);
    } else {
      var x, y :| x in chains && y in chains && x != y;
      var j :| Parent(ns, route, j) && x == ChainAt(c, route, j);
      var k :| Parent(ns, route, k) && y == ChainAt(c, route, k);
    }
  }

  /** THE ANNOTATIONS OF A ROUTE are refused exactly when its Gateways are not all known or disagree; a route
      without Gateways has its own relevant ones. */
  lemma RouteUninherited(c: State, ns: string, route: Route)
    ensures RouteAnnotations(c, ns, route).None? <==> Disagree(c, ns, route)
    ensures
      (forall key :: !Parent(ns, route, key)) ==>
        RouteAnnotations(c, ns, route) == Some(Inherited(route.annotations, map[]))
  {
    var chains := Chains(c, ns, route);
    hide Agreed, Merged, Parent, Chains, Inherited, ChainAt, Disagree;
    forall a ensures a in chains <==> exists key :: Parent(ns, route, key) && a == ChainAt(c, route, key) {
      ChainsAre(c, ns, route, a);
    }
    assert (forall key :: !Parent(ns, route, key)) ==> chains == {};
    assert AreChains(c, ns, route, chains);
    hide AreChains;
    Singleton(chains);
    MergedInherits(map[], route.annotations);
    if Disagree(c, ns, route) {
      DisagreeSplits(c, ns, route, chains);
    } else if None in chains || exists x, y :: x in chains && y in chains && x != y {
      SplitDisagrees(c, ns, route, chains);
      assert false;
    }
  }

  /** From the fields: a selected provider has a hostname of the route in its zones, and the route a broken
      backend it may refer to. */
  ghost predicate RouteBroken(c: State, ns: string, route: Route, values: Annotations) {
    exists p, h, b ::
      && HasItem(values, PROVIDERS, p) && p in c.providers && InZones(h, c.providers[p].zones)
      && RouteNames(route, values, h) && RefersTo(c, ns, route, b) && Broken(c, values, c.providers[p], b)
  }

  ghost predicate BadOwnHostname(route: Route, values: Annotations) {
    !Overridden(values) && route.kind == HTTPRoute
    && exists raw :: raw in route.hostnames && NormalizeHostname(raw).None?
  }

  lemma RouteHostsRefused(ps: Parsers, c: State, ns: string, route: Route, values: Annotations)
    requires Parse(ps, values).Some?
    ensures
      var hosts := RouteHosts(c, ns, route, Parse(ps, values).value.hostnames);
      && (hosts.None? <==> BadOwnHostname(route, values))
      && (hosts.Some? ==> (Obstructed(c, values, hosts.value) <==> RouteBroken(c, ns, route, values)))
  {
    hide Parse, Overridden, Overrides, NormalizeHostname, Tokens, RouteHosts, RefersTo, Obstructed, RouteBroken;
    var overrides := Parse(ps, values).value.hostnames;
    var hosts := RouteHosts(c, ns, route, overrides);
    forall h ensures (overrides != [] <==> Overridden(values)) && (h in overrides <==> Overrides(values, h)) {
      OverridesExact(ps, values, h);
    }
    OverridesExact(ps, values, "");
    RouteHostsExact(c, ns, route, overrides, "", Name("", ""));
    if hosts.Some? {
      forall h, b
        ensures (h in hosts.value && b in hosts.value[h]) <==> RefersTo(c, ns, route, b) && RouteNames(route, values, h)
      {
        RouteHostsExact(c, ns, route, overrides, h, b);
      }
      hide RouteNames;
      ObstructedRoute(c, ns, route, values, hosts.value);
    }
  }

  lemma ObstructedRoute(c: State, ns: string, route: Route, values: Annotations, hosts: map<string, set<Name>>)
    requires
      forall h, b :: (h in hosts && b in hosts[h]) <==> RefersTo(c, ns, route, b) && RouteNames(route, values, h)
    ensures Obstructed(c, values, hosts) <==> RouteBroken(c, ns, route, values)
  {
    hide InZones, Broken, RefersTo, RouteNames, HasItem;
    if Obstructed(c, values, hosts) {
      var p :| HasItem(values, PROVIDERS, p) && p in c.providers && ObstructedFor(c, values, hosts, p);
      var h, b :|
        h in hosts && InZones(h, c.providers[p].zones) && b in hosts[h] && Broken(c, values, c.providers[p], b);
      assert RefersTo(c, ns, route, b) && RouteNames(route, values, h);
      assert RouteBroken(c, ns, route, values);
    }
    if RouteBroken(c, ns, route, values) {
      var p, h, b :|
        && HasItem(values, PROVIDERS, p) && p in c.providers && InZones(h, c.providers[p].zones)
        && RouteNames(route, values, h) && RefersTo(c, ns, route, b) && Broken(c, values, c.providers[p], b);
      assert h in hosts && b in hosts[h];
      assert ObstructedFor(c, values, hosts, p);
    }
  }

  /** A ROUTE IS REFUSED exactly when its Gateways do not give it one set of annotations, one of these cannot be
      read, or (being enabled and selecting a provider) it has an invalid hostname where it uses its own or a
      broken backend. */
  lemma RouteRefused(ps: Parsers, c: State, ns: string, route: Route)
    ensures
      RouteOutcome(ps, c, ns, route).None? <==>
        || Disagree(c, ns, route)
        || (exists values ::
              && RouteAnnotations(c, ns, route) == Some(values)
              && (|| Misspelt(ps, values)
                  || (Enabled(values) && Selects(values)
                      && (BadOwnHostname(route, values) || RouteBroken(c, ns, route, values)))))
  {
    RouteUninherited(c, ns, route);
    OutcomeIs(ps, c, ns, route);
    hide RouteOutcome, RouteAnnotations, Disagree, Parse, Misspelt, Finish;
    if RouteAnnotations(c, ns, route).Some? {
      var values := RouteAnnotations(c, ns, route).value;
      ParseRefuses(ps, values);
      if Parse(ps, values).Some? {
        FinishRefuses(ps, c, values, RouteHosts(c, ns, route, Parse(ps, values).value.hostnames));
        RouteHostsRefused(ps, c, ns, route, values);
      }
    }
  }
}
