/** What the source controllers compute for one source from the state of the cluster: its
    publications, or nothing when the source or something it depends on is invalid. */
module Sources {
  import opened Lifecycle
  import opened Ordering
  import opened Text
  import opened Endpoints
  import opened Objects
  import opened Names
  import opened Cluster
  import opened AnnotationText
  import opened Projection
  import opened Resolver
  import opened Publisher

  const LEGACY_CLASS := "kubernetes.io/ingress.class"

  function ClassName(ing: Ingress): string {
    if ing.className.Some? then ing.className.value else Lookup(ing.annotations, LEGACY_CLASS)
  }

  /** The relevant annotations of an object, and of what it inherits from where it says nothing itself. */
  function Inherited(own: Annotations, base: Annotations): Annotations {
    map k | k in own.Keys + base.Keys && IsRelevant(k) :: if k in own then own[k] else base[k]
  }

  /** What an Ingress inherits from: the annotations of its class, if it names one. */
  function ClassAnnotations(c: State, ing: Ingress): Option<Annotations> {
    var name := ClassName(ing);
    if name == "" then Some(map[]) else if name in c.ingressClasses then Some(c.ingressClasses[name]) else None
  }

  /** Refused exactly when the class is named and missing; otherwise key by key the Ingress's own value, else
      the class's. */
  function IngressAnnotations(c: State, ing: Ingress): Option<Annotations> {
    var base := ClassAnnotations(c, ing);
    if base.None? then None else Some(Inherited(ing.annotations, base.value))
  }

  /** Merging two levels is inheriting. */
  lemma MergedInherits(base: Annotations, own: Annotations)
    ensures Merged([base, own]) == Inherited(own, base) && Merged([own]) == Inherited(own, map[])
  {
    hide IsRelevant;
    forall k
      ensures k in Merged([base, own]) <==> k in Inherited(own, base)
      ensures k in Merged([base, own]) ==> Merged([base, own])[k] == Inherited(own, base)[k]
      ensures k in Merged([own]) <==> k in Inherited(own, map[])
      ensures k in Merged([own]) ==> Merged([own])[k] == Inherited(own, map[])[k]
    {
      var i := MergedAt([base, own], k);
      var j := MergedAt([own], k);
      hide Merged;
      assert [base, own][0] == base && [base, own][1] == own && [own][0] == own;
    }
    hide Merged;
  }

  /** A reference to a Gateway, spelled out or by default. */
  predicate GatewayRef(ref: Ref) {
    !((ref.group.Some? && ref.group.value != GATEWAY_GROUP) || (ref.kind.Some? && ref.kind.value != GATEWAY))
  }

  function Chain(c: State, ns: string, route: Route, ref: Ref): Option<Annotations> {
    var key := RefName(ns, ref);
    if key !in c.gateways then None
    else
      var g := c.gateways[key];
      if g.className !in c.gatewayClasses then None
      else Some(Merged([c.gatewayClasses[g.className], g.annotations, route.annotations]))
  }

  function ChainsOf(c: State, ns: string, route: Route, refs: seq<Ref>): set<Option<Annotations>> {
    set ref | ref in refs && GatewayRef(ref) :: Chain(c, ns, route, ref)
  }

  function Chains(c: State, ns: string, route: Route): set<Option<Annotations>> {
    ChainsOf(c, ns, route, route.parents)
  }

  /** The one value of a set of results that all succeeded and agree. */
  ghost function Agreed(chains: set<Option<Annotations>>): Option<Annotations> {
    if exists a :: chains == {Some(a)} then
      var a :| chains == {Some(a)};
      Some(a)
    else None
  }

  ghost function RouteAnnotations(c: State, ns: string, route: Route): Option<Annotations> {
    var chains := Chains(c, ns, route);
    if chains == {} then Some(Merged([route.annotations])) else Agreed(chains)
  }

  lemma AgreedIs(chains: set<Option<Annotations>>, a: Annotations)
    ensures Agreed(chains) == Some(a) <==> chains == {Some(a)}
  {
    if chains == {Some(a)} {
      var b := Agreed(chains);
      assert b.Some? && chains == {b};
      assert Some(a) in {b};
    }
  }

  method ReadIngressAnnotations(c: State, ing: Ingress) returns (r: Option<Annotations>)
    ensures r == IngressAnnotations(c, ing)
  {
    hide Merged, Inherited;
    var name := "";
    if ing.className.Some? {
      name := ing.className.value;
    } else {
      name := Lookup(ing.annotations, LEGACY_CLASS);
    }
    if name == "" {
      var own := MergeAnnotations([ing.annotations]);
      MergedInherits(map[], ing.annotations);
      return Some(own);
    }
    if name !in c.ingressClasses {
      return None;
    }
    var merged := MergeAnnotations([c.ingressClasses[name], ing.annotations]);
    MergedInherits(c.ingressClasses[name], ing.annotations);
    r := Some(merged);
  }

  function Wrapped(chains: seq<Annotations>): set<Option<Annotations>> { set a | a in chains :: Some(a) }

  lemma WrappedStep(chains: seq<Annotations>, chain: Annotations)
    ensures Wrapped(chains + [chain]) == Wrapped(chains) + {Some(chain)}
  {
    forall a ensures a in chains + [chain] <==> a in chains || a == chain { }
  }

  lemma ChainsStep(c: State, ns: string, route: Route, refs: seq<Ref>, ref: Ref)
    ensures ChainsOf(c, ns, route, refs + [ref]) ==
            ChainsOf(c, ns, route, refs) + if GatewayRef(ref) then {Chain(c, ns, route, ref)} else {}
  {
    hide Chain, GatewayRef;
    forall x ensures x in refs + [ref] <==> x in refs || x == ref { }
  }

  method ReadRouteAnnotations(c: State, ns: string, route: Route) returns (r: Option<Annotations>)
    ensures r == RouteAnnotations(c, ns, route)
  {
    hide Merged;
    var chains: seq<Annotations> := [];
    for i := 0 to |route.parents|
      invariant Wrapped(chains) == ChainsOf(c, ns, route, route.parents[..i])
    {
      var ref := route.parents[i];
      assert route.parents[..i + 1] == route.parents[..i] + [ref];
      ChainsStep(c, ns, route, route.parents[..i], ref);
      if !GatewayRef(ref) {
        continue;
      }
      assert ref in route.parents;
      var key := RefName(ns, ref);
      if key !in c.gateways || c.gateways[key].className !in c.gatewayClasses {
        assert None in Chains(c, ns, route);
        return None;
      }
      var g := c.gateways[key];
      var chain := MergeAnnotations([c.gatewayClasses[g.className], g.annotations, route.annotations]);
      WrappedStep(chains, chain);
      chains := chains + [chain];
    }
    assert route.parents[..|route.parents|] == route.parents;
    assert Chains(c, ns, route) == Wrapped(chains);
    if |chains| == 0 {
      var own := MergeAnnotations([route.annotations]);
      return Some(own);
    }
    assert Some(chains[0]) in Chains(c, ns, route);
    hide Chains;
    for i := 1 to |chains|
      invariant forall j :: 0 <= j < i ==> chains[j] == chains[0]
    {
      if chains[i] != chains[0] {
        assert Some(chains[i]) in Chains(c, ns, route);
        return None;
      }
    }
    assert Chains(c, ns, route) == {Some(chains[0])};
    AgreedIs(Chains(c, ns, route), chains[0]);
    r := Some(chains[0]);
  }

  /** A disabled source, or one without providers, publishes nothing. */
  ghost function Finish(c: State, opts: Parsed, hosts: Option<map<string, set<Name>>>): Option<seq<Publication>> {
    if !opts.enabled || opts.providers == [] then Some([])
    else if hosts.None? then None
    else Published(c, opts, hosts.value)
  }

  ghost function IngressOutcome(ps: Parsers, c: State, ns: string, ing: Ingress): Option<seq<Publication>> {
    var annotations := IngressAnnotations(c, ing);
    if annotations.None? then None
    else
      var opts := Parse(ps, annotations.value);
      if opts.None? then None
      else Finish(c, opts.value, IngressHosts(ns, ing, opts.value.hostnames))
  }

  ghost function RouteOutcome(ps: Parsers, c: State, ns: string, route: Route): Option<seq<Publication>> {
    var annotations := RouteAnnotations(c, ns, route);
    if annotations.None? then None
    else
      var opts := Parse(ps, annotations.value);
      if opts.None? then None
      else Finish(c, opts.value, RouteHosts(c, ns, route, opts.value.hostnames))
  }

  lemma ParsedLists(ps: Parsers, values: Annotations)
    requires Parse(ps, values).Some?
    ensures
      var opts := Parse(ps, values).value;
      && StrictlySorted(StringLess, opts.providers) && StrictlySorted(StringLess, opts.hostnames)
      && Distinct(opts.families)
      && (forall n :: n in opts.providers ==> n != "")
      && (forall h :: h in opts.hostnames ==> Hostname(h) && ToLower(TrimDot(h)) == h)
  {
    hide StringLess, Tokens, SortedStrings, SortedFamilies, FamilyOf;
    SortedStringsLists(ItemsAt(values, PROVIDERS));
    SortedStringsLists(set t | t in ItemsAt(values, HOSTNAMES) :: NormalizeHostname(t).value);
    forall t | t in ItemsAt(values, HOSTNAMES)
      ensures var h := NormalizeHostname(t).value; Hostname(h) && ToLower(TrimDot(h)) == h
    {
      NormalizedIsFixed(t);
    }
    hide NormalizeHostname, Hostname, ToLower, TrimDot;
    FamiliesListed(set t | t in ItemsAt(values, FAMILIES) :: FamilyOf(t).value);
  }

  lemma FamiliesListed(s: set<Family>)
    ensures Distinct(SortedFamilies(s))
  {
    SortSetSorts(FamilyLess, s);
  }

  method ResolveIngress(ps: Parsers, c: State, ns: string, ing: Ingress) returns (r: Option<seq<Publication>>)
    ensures r == IngressOutcome(ps, c, ns, ing)
  {
    hide IngressAnnotations, Parse, IngressHosts, Published, Projects, Distinct, StrictlySorted, StringLess;
    var annotations := ReadIngressAnnotations(c, ing);
    if annotations.None? {
      return None;
    }
    var opts := ParseAnnotations(ps, annotations.value);
    if opts.None? {
      return None;
    }
    if !opts.value.enabled || |opts.value.providers| == 0 {
      return Some([]);
    }
    ParsedLists(ps, annotations.value);
    var projection := IngressProjection(ns, ing, opts.value.hostnames);
    if projection.None? {
      return None;
    }
    SortedDistinct(Hostnames(projection.value));
    r := ResolvePublications(c, opts.value, IngressHosts(ns, ing, opts.value.hostnames).value, projection.value);
  }

  method ResolveRoute(ps: Parsers, c: State, ns: string, route: Route) returns (r: Option<seq<Publication>>)
    ensures r == RouteOutcome(ps, c, ns, route)
  {
    hide RouteAnnotations, Parse, RouteHosts, Published, Projects, Distinct, StrictlySorted, StringLess;
    var annotations := ReadRouteAnnotations(c, ns, route);
    if annotations.None? {
      return None;
    }
    var opts := ParseAnnotations(ps, annotations.value);
    if opts.None? {
      return None;
    }
    if !opts.value.enabled || |opts.value.providers| == 0 {
      return Some([]);
    }
    ParsedLists(ps, annotations.value);
    var projection := RouteProjection(c, ns, route, opts.value.hostnames);
    if projection.None? {
      return None;
    }
    SortedDistinct(Hostnames(projection.value));
    r := ResolvePublications(c, opts.value, RouteHosts(c, ns, route, opts.value.hostnames).value, projection.value);
  }
}
