/** The mapper: from a changed object to the sources to reconcile, through the indexes, each list with its
    fallback. Any list may fail; `complete` says that none exhausted its fallback. */
module Mapper {
  import opened Lifecycle
  import opened Ordering
  import opened Objects
  import opened Cluster
  import opened AnnotationText
  import opened Projection
  import opened Publisher
  import opened Sources
  import opened Index

  method CollectServices(ns: string, services: seq<Option<string>>) returns (r: set<string>)
    ensures r == ServiceKeys(ns, services)
  {
    r := {};
    for i := 0 to |services|
      invariant r == ServiceKeys(ns, services[..i])
    {
      assert services[..i + 1] == services[..i] + [services[i]];
      if services[i].Some? {
        r := r + {ns + "/" + services[i].value};
      }
    }
    assert services[..|services|] == services;
  }

  function RulesKeys(ns: string, rules: seq<Rule>): set<string> {
    set r, k | r in rules && k in RuleKeys(ns, r) :: k
  }

  lemma RulesKeysStep(ns: string, rules: seq<Rule>, i: nat)
    requires i < |rules|
    ensures RulesKeys(ns, rules[..i + 1]) == RulesKeys(ns, rules[..i]) + RuleKeys(ns, rules[i])
  {
    hide RuleKeys;
    assert rules[..i + 1] == rules[..i] + [rules[i]];
    forall x ensures x in rules[..i + 1] <==> x in rules[..i] || x == rules[i] { }
  }

  /** `ingressBackendKeys` */
  method ComputeIngressBackendKeys(ns: string, ing: Ingress) returns (r: set<string>)
    ensures r == IngressBackendKeys(ns, ing)
  {
    r := CollectServices(ns, [ing.defaultService]);
    ghost var own := r;
    for i := 0 to |ing.rules|
      invariant r == own + RulesKeys(ns, ing.rules[..i])
    {
      RulesKeysStep(ns, ing.rules, i);
      if ing.rules[i].paths.Some? {
        var more := CollectServices(ns, ing.rules[i].paths.value);
        r := r + more;
      }
    }
    assert ing.rules[..|ing.rules|] == ing.rules;
  }

  /** `routeBackendKeys` */
  method ComputeRouteBackendKeys(ns: string, route: Route) returns (r: set<string>)
    ensures r == RouteBackendKeys(ns, route)
  {
    var refs := RouteBackendRefs(route);
    hide Flatten;
    r := {};
    for i := 0 to |refs|
      invariant r == set ref | ref in refs[..i] && ServiceRef(ref) :: Key(RefName(ns, ref))
    {
      assert refs[..i + 1] == refs[..i] + [refs[i]];
      if !ServiceRef(refs[i]) {
        continue;
      }
      r := r + {Key(RefName(ns, refs[i]))};
    }
    assert refs[..|refs|] == refs;
  }

  /** `dedupe`: the first of each. */
  method Dedupe(values: seq<Name>) returns (r: seq<Name>)
    ensures Elems(r) == Elems(values) && Distinct(r)
  {
    var seen: set<Name> := {};
    r := [];
    for i := 0 to |values|
      invariant seen == Elems(r) == Elems(values[..i]) && Distinct(r)
    {
      assert Elems(values[..i + 1]) == Elems(values[..i]) + {values[i]} by {
        assert values[..i + 1] == values[..i] + [values[i]];
      }
      if values[i] !in seen {
        seen := seen + {values[i]};
        ghost var before := r;
        r := r + [values[i]];
        assert Elems(r) == Elems(before) + {values[i]};
        forall j | 0 <= j < |before| ensures before[j] != values[i] { assert before[j] in Elems(before); }
      }
    }
    assert values[..|values|] == values;
  }

  /** An indexed list with its fallback: those the index has, or all, or the failure of both. */
  method ListIndexed<K, V>(objects: map<K, V>, keys: (K, V) -> set<string>, value: string)
    returns (r: seq<K>, complete: bool)
    ensures forall k :: k in r ==> k in objects
    ensures complete ==> forall k :: k in objects && value in keys(k, objects[k]) ==> k in r
    ensures !complete ==> r == []
  {
    complete := true;
    if * {
      r := ListSet(set k | k in objects && value in keys(k, objects[k]));
      assert forall k :: k in Elems(r) <==> k in r;
    } else if * {
      r := ListSet(objects.Keys);
      assert forall k :: k in Elems(r) <==> k in r;
    } else {
      r, complete := [], false;
    }
  }

  ghost predicate OnNode(d: State, key: Name, node: string, keys: set<string>) {
    SliceServes(d, key, keys) && node in EndpointNodes(d.slices[key])
  }

  /** `sourcesForNode`: through the slices that name the node to the sources of their services. */
  method SourcesForNode<S>(d: State, sources: map<Name, S>, keys: (Name, S) -> set<string>, node: string)
    returns (r: seq<Name>, complete: bool)
    ensures forall k :: k in r ==> k in sources
    ensures complete ==> forall k :: k in sources && NodeServes(d, node, keys(k, sources[k])) ==> k in r
    ensures Distinct(r)
  {
    var slices;
    slices, complete := ListIndexed(d.slices, (k, s) => EndpointNodes(s), node);
    hide EndpointNodes;
    if !complete {
      return [], false;
    }
    assert forall k :: k in d.slices && node in EndpointNodes(d.slices[k]) ==> k in slices;
    var result: seq<Name> := [];
    for i := 0 to |slices|
      invariant forall k :: k in result ==> k in sources
      invariant
        complete ==> forall j, k :: 0 <= j < i && k in sources && OnNode(d, slices[j], node, keys(k, sources[k])) ==>
          k in result
    {
      var at := slices[i];
      assert at in slices;
      if node !in EndpointNodes(d.slices[at]) {
        continue;
      }
      var key := EndpointService(at, d.slices[at]);
      if key.Some? {
        var found, ok := ListIndexed(sources, keys, key.value);
        complete := complete && ok;
        result := result + found;
      }
    }
    r := Dedupe(result);
    assert forall k :: k in r <==> k in Elems(r);
    assert forall k :: k in result <==> k in Elems(result);
    if complete {
      forall k | k in sources && NodeServes(d, node, keys(k, sources[k])) ensures k in r {
        var s :| s in d.slices && node in EndpointNodes(d.slices[s]) && SliceServes(d, s, keys(k, sources[k]));
        assert s in slices && OnNode(d, s, node, keys(k, sources[k]));
      }
    }
  }

  /** `ingressSlice` and `routeSlice`: the sources of the service the slice belongs to. */
  method SourcesForSlice<S>(sources: map<Name, S>, keys: (Name, S) -> set<string>, key: Name, slice: Slice)
    returns (r: seq<Name>, complete: bool)
    ensures forall k :: k in r ==> k in sources
    ensures complete && EndpointService(key, slice).Some? ==>
              forall k :: k in sources && EndpointService(key, slice).value in keys(k, sources[k]) ==> k in r
  {
    var service := EndpointService(key, slice);
    if service.None? {
      return [], true;
    }
    r, complete := ListIndexed(sources, keys, service.value);
  }

  const BACKENDS: (Name, Ingress) -> set<string> := (k: Name, i: Ingress) => IngressBackendKeys(k.namespace, i)
  const CLASSES: (Name, Ingress) -> set<string> := (k: Name, i: Ingress) => IngressClassKeys(i)
  const TOKENS: (Name, Ingress) -> set<string> := (k: Name, i: Ingress) => ProviderTokens(i.annotations)

  /** `ingressProvider`: by the Ingress's own annotation, then through the classes that name the provider. */
  method IngressesForProvider(d: State, sources: map<Name, Ingress>, name: string)
    returns (r: seq<Name>, complete: bool)
    ensures forall k :: k in r ==> k in sources
    ensures
      complete ==> forall k :: k in sources && IngressMapped(d, d, ProviderNamed(name), k.namespace, sources[k]) ==>
        k in r
    ensures Distinct(r)
  {
    hide ProviderTokens, IngressClassKeys;
    var result, ok := ListIndexed(sources, TOKENS, name);
    var classes;
    classes, complete := ListIndexed(d.ingressClasses, (n: string, a: Annotations) => ProviderTokens(a), name);
    assert complete ==> forall n :: n in d.ingressClasses && name in ProviderTokens(d.ingressClasses[n]) ==>
      n in classes;
    var usable := complete;
    complete := complete && ok;
    if usable {
      ghost var direct := result;
      for i := 0 to |classes|
        invariant forall k :: k in result ==> k in sources
        invariant forall k :: k in direct ==> k in result
        invariant complete ==> ok
        invariant
          complete ==> forall j, k :: 0 <= j < i && k in sources && ByClass(d, classes[j], name, sources[k]) ==>
            k in result
      {
        var className := classes[i];
        assert className in classes;
        if name !in ProviderTokens(d.ingressClasses[className]) {
          continue;
        }
        var found, answered := ListIndexed(sources, CLASSES, className);
        complete := complete && answered;
        result := result + found;
      }
    }
    r := Dedupe(result);
    assert forall k :: k in r <==> k in Elems(r);
    assert forall k :: k in result <==> k in Elems(result);
    if complete {
      forall k | k in sources && IngressMapped(d, d, ProviderNamed(name), k.namespace, sources[k]) ensures k in r {
        if name !in ProviderTokens(sources[k].annotations) {
          var cl :| cl in d.ingressClasses && name in ProviderTokens(d.ingressClasses[cl])
              && cl in IngressClassKeys(sources[k]);
          assert cl in classes && ByClass(d, cl, name, sources[k]);
        }
      }
    }
  }

  ghost predicate ByClass(d: State, cl: string, name: string, ing: Ingress) {
    cl in d.ingressClasses && name in ProviderTokens(d.ingressClasses[cl]) && cl in IngressClassKeys(ing)
  }

  ghost predicate IngressAffected(ps: Parsers, c: State, d: State, ns: string, ing: Ingress) {
    IngressOutcome(ps, c, ns, ing) != IngressOutcome(ps, d, ns, ing)
  }

  ghost predicate RouteAffected(ps: Parsers, c: State, d: State, ns: string, route: Route) {
    RouteOutcome(ps, c, ns, route) != RouteOutcome(ps, d, ns, route)
  }

  /** The watches of the Ingress controller: both the old and the new object are mapped. When no list
      exhausts its fallback, every Ingress whose publications the change affects is among the requests. */
  method MapIngresses(ghost ps: Parsers, c: State, d: State, at: Dependency, sources: map<Name, Ingress>)
    returns (r: seq<Name>, complete: bool)
    requires Stored(c) && Stored(d) && OnlyAt(c, d, at)
    ensures forall k :: k in r ==> k in sources
    ensures complete ==> forall k :: k in sources && IngressAffected(ps, c, d, k.namespace, sources[k]) ==> k in r
  {
    hide IngressBackendKeys, IngressClassKeys, ProviderTokens, IngressOutcome, OnlyAt, Stored, EndpointService;
    complete := true;
    match at {
      case ServiceAt(key) => r, complete := ListIndexed(sources, BACKENDS, Key(key));
      case SliceAt(key) =>
        r, complete := MapSlice(sources, BACKENDS, c, d, key);
      case NodeAt(name) => r, complete := SourcesForNode(d, sources, BACKENDS, name);
      case ProviderNamed(name) => r, complete := IngressesForProvider(d, sources, name);
      case IngressClassAt(name) => r, complete := ListIndexed(sources, CLASSES, name);
      case _ => r := [];
    }
    forall k | k in sources
      ensures IngressAffected(ps, c, d, k.namespace, sources[k]) ==> IngressMapped(c, d, at, k.namespace, sources[k])
    {
      IngressComplete(ps, c, d, at, k.namespace, sources[k]);
    }
  }

  /** A changed slice: the object as it was, then as it is. */
  method MapSlice<S>(sources: map<Name, S>, keys: (Name, S) -> set<string>, c: State, d: State, key: Name)
    returns (r: seq<Name>, complete: bool)
    ensures forall k :: k in r ==> k in sources
    ensures complete ==> forall k :: k in sources && SliceServes(c, key, keys(k, sources[k])) ==> k in r
    ensures complete ==> forall k :: k in sources && SliceServes(d, key, keys(k, sources[k])) ==> k in r
  {
    var before: seq<Name>, ok := [], true;
    if key in c.slices {
      before, ok := SourcesForSlice(sources, keys, key, c.slices[key]);
    }
    r, complete := [], true;
    if key in d.slices {
      r, complete := SourcesForSlice(sources, keys, key, d.slices[key]);
    }
    r, complete := before + r, complete && ok;
  }

  const ROUTE_BACKENDS: (Name, Route) -> set<string> := (k: Name, t: Route) => RouteBackendKeys(k.namespace, t)
  const ROUTE_PARENTS: (Name, Route) -> set<string> := (k: Name, t: Route) => RouteParentKeys(k.namespace, t)
  const ROUTE_NAMESPACES: (Name, Route) -> set<string> := (k: Name, t: Route) => RouteBackendNamespaces(k.namespace, t)
  const ROUTE_TOKENS: (Name, Route) -> set<string> := (k: Name, t: Route) => ProviderTokens(t.annotations)

  ghost predicate Reaches(d: State, g: Name, wanted: Gateway -> bool, ns: string, route: Route) {
    GatewayServes(d, g, ns, route) && wanted(d.gateways[g])
  }

  /** Routes reached through those gateways of a list that pass a test. */
  method RoutesOfGateways(d: State, sources: map<Name, Route>, gateways: seq<Name>, wanted: Gateway -> bool)
    returns (r: seq<Name>, complete: bool)
    requires forall g :: g in gateways ==> g in d.gateways
    ensures forall k :: k in r ==> k in sources
    ensures
      complete ==> forall g, k :: g in gateways && k in sources && Reaches(d, g, wanted, k.namespace, sources[k]) ==>
        k in r
  {
    hide RouteParentKeys;
    r, complete := [], true;
    for i := 0 to |gateways|
      invariant forall k :: k in r ==> k in sources
      invariant
        complete ==> forall j, k ::
          0 <= j < i && k in sources && Reaches(d, gateways[j], wanted, k.namespace, sources[k]) ==> k in r
    {
      assert gateways[i] in gateways;
      if !wanted(d.gateways[gateways[i]]) {
        continue;
      }
      var found, ok := ListIndexed(sources, ROUTE_PARENTS, Key(gateways[i]));
      complete := complete && ok;
      r := r + found;
    }
  }

  /** `routeGatewayClass`: through the gateways of the class. */
  method RoutesForGatewayClass(d: State, sources: map<Name, Route>, name: string) returns (r: seq<Name>, complete: bool)
    ensures forall k :: k in r ==> k in sources
    ensures
      complete ==> forall k :: k in sources && RouteMapped(d, d, GatewayClassAt(name), k.namespace, sources[k]) ==>
        k in r
    ensures Distinct(r)
  {
    var gateways;
    gateways, complete := ListIndexed(d.gateways, (k: Name, g: Gateway) => {g.className}, name);
    if !complete {
      return [], false;
    }
    r, complete := RoutesOfGateways(d, sources, gateways, (g: Gateway) => g.className == name);
    ghost var found := r;
    r := Dedupe(r);
    assert forall k :: k in r <==> k in Elems(r);
    assert forall k :: k in found <==> k in Elems(found);
  }

  /** `routeProvider`: by the route's own annotation, its gateways', and their classes'. */
  method RoutesForProvider(d: State, sources: map<Name, Route>, name: string) returns (r: seq<Name>, complete: bool)
    ensures forall k :: k in r ==> k in sources
    ensures
      complete ==> forall k :: k in sources && RouteMapped(d, d, ProviderNamed(name), k.namespace, sources[k]) ==>
        k in r
    ensures Distinct(r)
  {
    hide ProviderTokens;
    var result, ok := ListIndexed(sources, ROUTE_TOKENS, name);
    var gateways, gatewaysOk := ListIndexed(d.gateways, (k: Name, g: Gateway) => ProviderTokens(g.annotations), name);
    if !gatewaysOk {
      r := Dedupe(result);
      assert forall k :: k in r <==> k in Elems(r);
      return r, false;
    }
    var second, secondOk := RoutesOfGateways(d, sources, gateways,
        (g: Gateway) => name in ProviderTokens(g.annotations));
    var classes, classesOk := ListIndexed(d.gatewayClasses, (n: string, a: Annotations) => ProviderTokens(a), name);
    var third: seq<Name> := [];
    complete := ok && secondOk && classesOk;
    for i := 0 to |classes|
      invariant forall k :: k in third ==> k in sources
      invariant complete ==> ok && secondOk && classesOk
      invariant
        complete ==> forall j, k ::
          0 <= j < i && k in sources && ByGatewayClass(d, classes[j], name, k.namespace, sources[k]) ==> k in third
    {
      assert classes[i] in classes;
      if name !in ProviderTokens(d.gatewayClasses[classes[i]]) {
        continue;
      }
      var found, answered := RoutesForGatewayClass(d, sources, classes[i]);
      complete := complete && answered;
      third := third + found;
    }
    r := Dedupe(result + second + third);
    assert forall k :: k in r <==> k in Elems(r);
    assert forall k :: k in result + second + third <==> k in Elems(result + second + third);
    if complete {
      forall k | k in sources && RouteMapped(d, d, ProviderNamed(name), k.namespace, sources[k]) ensures k in r {
        ByProvider(d, name, k.namespace, sources[k], gateways, classes);
      }
    }
  }

  ghost predicate ByGatewayClass(d: State, cl: string, name: string, ns: string, route: Route) {
    && cl in d.gatewayClasses && name in ProviderTokens(d.gatewayClasses[cl])
    && RouteMapped(d, d, GatewayClassAt(cl), ns, route)
  }

  lemma ByProvider(d: State, name: string, ns: string, route: Route, gateways: seq<Name>, classes: seq<string>)
    requires RouteMapped(d, d, ProviderNamed(name), ns, route)
    requires forall g :: g in d.gateways && name in ProviderTokens(d.gateways[g].annotations) ==> g in gateways
    requires forall n :: n in d.gatewayClasses && name in ProviderTokens(d.gatewayClasses[n]) ==> n in classes
    ensures
      || name in ProviderTokens(route.annotations)
      || (exists g :: g in gateways && Reaches(d, g, (x: Gateway) => name in ProviderTokens(x.annotations), ns, route))
      || (exists j :: 0 <= j < |classes| && ByGatewayClass(d, classes[j], name, ns, route))
  {
    hide ProviderTokens, RouteParentKeys;
  }

  /** The watches of a route controller. */
  method MapRoutes(ghost ps: Parsers, c: State, d: State, at: Dependency, sources: map<Name, Route>)
    returns (r: seq<Name>, complete: bool)
    requires Stored(c) && Stored(d) && OnlyAt(c, d, at)
    ensures forall k :: k in r ==> k in sources
    ensures
      complete ==> forall k :: k in sources && RouteAffected(ps, c, d, k.namespace, sources[k]) ==>
        k in r || (at.GrantAt? && Gap(ps, c, k.namespace, sources[k]))
  {
    hide RouteBackendKeys, RouteParentKeys, RouteBackendNamespaces, ProviderTokens, RouteOutcome, OnlyAt, Stored, Gap;
    complete := true;
    match at {
      case ServiceAt(key) => r, complete := ListIndexed(sources, ROUTE_BACKENDS, Key(key));
      case SliceAt(key) => r, complete := MapSlice(sources, ROUTE_BACKENDS, c, d, key);
      case NodeAt(name) => r, complete := SourcesForNode(d, sources, ROUTE_BACKENDS, name);
      case ProviderNamed(name) => r, complete := RoutesForProvider(d, sources, name);
      case GatewayAt(key) => r, complete := ListIndexed(sources, ROUTE_PARENTS, Key(key));
      case GatewayClassAt(name) => r, complete := RoutesForGatewayClass(d, sources, name);
      case GrantAt(key) => r, complete := ListIndexed(sources, ROUTE_NAMESPACES, key.namespace);
      case IngressClassAt(_) => r := [];
    }
    forall k | k in sources
      ensures
        RouteAffected(ps, c, d, k.namespace, sources[k]) ==>
          RouteMapped(c, d, at, k.namespace, sources[k]) || (at.GrantAt? && Gap(ps, c, k.namespace, sources[k]))
    {
      RouteComplete(ps, c, d, at, k.namespace, sources[k]);
    }
  }
}
