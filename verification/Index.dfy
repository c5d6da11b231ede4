/** The index keys of sources and of the objects between a source and what it depends on, and the
    theorem that they cover everything the source controllers read. */
module Index {
  import opened Lifecycle
  import opened Ordering
  import opened Endpoints
  import opened Objects
  import opened Names
  import opened Cluster
  import opened AnnotationText
  import opened Projection
  import opened Resolver
  import opened Publisher
  import opened Sources

  function ServiceKeys(ns: string, services: seq<Option<string>>): set<string> {
    set s | s in services && s.Some? :: ns + "/" + s.value
  }

  function RuleKeys(ns: string, r: Rule): set<string> { if r.paths.Some? then ServiceKeys(ns, r.paths.value) else {} }

  /** `ingressBackendKeys`: every service named, whether or not its rule is used. */
  function IngressBackendKeys(ns: string, ing: Ingress): set<string> {
    ServiceKeys(ns, [ing.defaultService]) + set r, k | r in ing.rules && k in RuleKeys(ns, r) :: k
  }

  /** `ingressClassKeys` */
  function IngressClassKeys(ing: Ingress): set<string> {
    if ing.className.Some? then {ing.className.value}
    else if Lookup(ing.annotations, LEGACY_CLASS) != "" then {Lookup(ing.annotations, LEGACY_CLASS)}
    else {}
  }

  /** `routeBackendKeys` */
  function RouteBackendKeys(ns: string, route: Route): set<string> {
    set ref | ref in Flatten(route.rules) && ServiceRef(ref) :: Key(RefName(ns, ref))
  }

  /** `strings.SplitN(key, "/", 2)[0]` */
  function BeforeSlash(s: string): string {
    if s == "" || s[0] == '/' then "" else [s[0]] + BeforeSlash(s[1..])
  }

  /** `routeBackendNamespaces` */
  function RouteBackendNamespaces(ns: string, route: Route): set<string> {
    set k | k in RouteBackendKeys(ns, route) :: BeforeSlash(k)
  }

  /** `routeParents` */
  function RouteParentKeys(ns: string, route: Route): set<string> {
    set ref | ref in route.parents && GatewayRef(ref) :: Key(RefName(ns, ref))
  }

  /** `providerTokens` */
  function ProviderTokens(annotations: Annotations): set<string> { ItemsAt(annotations, PROVIDERS) }

  /** `endpointNodes`: nodes of all endpoints, ready or not. */
  function EndpointNodes(s: Slice): set<string> {
    set e | e in s.endpoints && e.node.Some? && e.node.value != "" :: e.node.value
  }

  /** `endpointService` */
  function EndpointService(key: Name, s: Slice): Option<string> {
    if OrEmpty(s.service) != "" then Some(key.namespace + "/" + s.service.value) else None
  }

  /** What a source depends on, by kind. */
  datatype Dependency =
    | ServiceAt(key: Name)
    | SliceAt(key: Name)
    | NodeAt(name: string)
    | ProviderNamed(name: string)
    | IngressClassAt(name: string)
    | GatewayAt(key: Name)
    | GatewayClassAt(name: string)
    | GrantAt(key: Name)

  ghost predicate SameElsewhere<K(!new), V>(a: map<K, V>, b: map<K, V>, key: K) {
    forall k :: k != key ==> (k in a <==> k in b) && (k in a ==> a[k] == b[k])
  }

  /** Two states that differ at most in one object: changed, created or deleted. */
  ghost predicate OnlyAt(c: State, d: State, at: Dependency) {
    match at
    case ServiceAt(key) =>
      d == c.(services := d.services) && forall k :: k != key ==> (k in c.services <==> k in d.services)
    case SliceAt(key) => d == c.(slices := d.slices) && SameElsewhere(c.slices, d.slices, key)
    case NodeAt(name) => d == c.(nodes := d.nodes) && SameElsewhere(c.nodes, d.nodes, name)
    case ProviderNamed(name) => d == c.(providers := d.providers) && SameElsewhere(c.providers, d.providers, name)
    case IngressClassAt(name) =>
      d == c.(ingressClasses := d.ingressClasses) && SameElsewhere(c.ingressClasses, d.ingressClasses, name)
    case GatewayAt(key) => d == c.(gateways := d.gateways) && SameElsewhere(c.gateways, d.gateways, key)
    case GatewayClassAt(name) =>
      d == c.(gatewayClasses := d.gatewayClasses) && SameElsewhere(c.gatewayClasses, d.gatewayClasses, name)
    case GrantAt(key) => d == c.(grants := d.grants) && SameElsewhere(c.grants, d.grants, key)
  }

  /** The objects handed to the mapper: the slice as it was and as it is. Of the other kinds the mapper
      uses only the name. */
  ghost predicate SliceServes(c: State, key: Name, keys: set<string>) {
    key in c.slices && EndpointService(key, c.slices[key]).Some? && EndpointService(key, c.slices[key]).value in keys
  }

  ghost predicate NodeServes(c: State, node: string, keys: set<string>) {
    exists k :: k in c.slices && node in EndpointNodes(c.slices[k]) && SliceServes(c, k, keys)
  }

  /** The mapper's answer for an Ingress when the lists it needs answer, from the object before the change
      or after it. */
  ghost predicate IngressMapped(c: State, d: State, at: Dependency, ns: string, ing: Ingress) {
    var backends := IngressBackendKeys(ns, ing);
    match at
    case ServiceAt(key) => Key(key) in backends
    case SliceAt(key) => SliceServes(c, key, backends) || SliceServes(d, key, backends)
    case NodeAt(name) => NodeServes(d, name, backends)
    case ProviderNamed(name) =>
      || name in ProviderTokens(ing.annotations)
      || exists cl :: cl in d.ingressClasses && name in ProviderTokens(d.ingressClasses[cl])
          && cl in IngressClassKeys(ing)
    case IngressClassAt(name) => name in IngressClassKeys(ing)
    case _ => false
  }

  ghost predicate GatewayServes(c: State, key: Name, ns: string, route: Route) {
    key in c.gateways && Key(key) in RouteParentKeys(ns, route)
  }

  ghost predicate RouteMapped(c: State, d: State, at: Dependency, ns: string, route: Route) {
    var backends := RouteBackendKeys(ns, route);
    match at
    case ServiceAt(key) => Key(key) in backends
    case SliceAt(key) => SliceServes(c, key, backends) || SliceServes(d, key, backends)
    case NodeAt(name) => NodeServes(d, name, backends)
    case ProviderNamed(name) =>
      || name in ProviderTokens(route.annotations)
      || (exists g :: GatewayServes(d, g, ns, route) && name in ProviderTokens(d.gateways[g].annotations))
      || (exists g :: GatewayServes(d, g, ns, route) && d.gateways[g].className in d.gatewayClasses
                      && name in ProviderTokens(d.gatewayClasses[d.gateways[g].className]))
    case GatewayAt(key) => Key(key) in RouteParentKeys(ns, route)
    case GatewayClassAt(name) => exists g :: GatewayServes(d, g, ns, route) && d.gateways[g].className == name
    case GrantAt(key) => key.namespace in RouteBackendNamespaces(ns, route)
    case IngressClassAt(_) => false
  }

  /** Two states in which a backend resolves alike. */
  ghost predicate SameBackend(c: State, d: State, b: Name) {
    && (b in c.services <==> b in d.services)
    && (b in c.services ==>
          && ReadyNodes(c, b) == ReadyNodes(d, b)
          && forall n :: n in ReadyNodes(c, b) ==>
            (n in c.nodes <==> n in d.nodes) && (n in c.nodes ==> c.nodes[n] == d.nodes[n]))
  }

  lemma BackendAlike(q: Query, c: State, d: State, b: Name)
    requires SameBackend(c, d, b)
    ensures Resolves(q, c, b) <==> Resolves(q, d, b)
    ensures Resolves(q, c, b) ==> forall f :: BackendAddresses(q, c, f, b) == BackendAddresses(q, d, f, b)
  {
    hide ReadyNodes, Read;
    if Resolves(q, c, b) {
      forall f ensures BackendAddresses(q, c, f, b) == BackendAddresses(q, d, f, b) {
        forall n | n in ReadyNodes(c, b) ensures Supplied(q, c, f, n) == Supplied(q, d, f, n) { }
        hide Supplied;
      }
    }
  }

  ghost predicate SameHosts(c: State, d: State, hosts: map<string, set<Name>>) {
    forall h, b :: h in hosts && b in hosts[h] ==> SameBackend(c, d, b)
  }

  lemma HostsAlike(q: Query, c: State, d: State, hosts: map<string, set<Name>>)
    requires SameHosts(c, d, hosts)
    ensures AllResolve(q, c, hosts) <==> AllResolve(q, d, hosts)
  {
    hide InZones;
    forall h, b | h in hosts && b in hosts[h] ensures Resolves(q, c, b) <==> Resolves(q, d, b) {
      BackendAlike(q, c, d, b);
    }
    hide Resolves;
  }

  lemma AddressesAlike(q: Query, c: State, d: State, f: Family, backends: set<Name>)
    requires forall b :: b in backends ==> SameBackend(c, d, b) && Resolves(q, c, b)
    ensures HostAddresses(q, c, f, backends) == HostAddresses(q, d, f, backends)
  {
    forall b | b in backends ensures BackendAddresses(q, c, f, b) == BackendAddresses(q, d, f, b) {
      BackendAlike(q, c, d, b);
    }
    hide BackendAddresses, SameBackend, Resolves;
  }

  lemma IdsAlike(q: Query, c: State, d: State, hosts: map<string, set<Name>>)
    requires SameHosts(c, d, hosts) && AllResolve(q, c, hosts)
    ensures RecordIds(q, c, hosts) == RecordIds(q, d, hosts)
    ensures forall id :: id in RecordIds(q, c, hosts) ==> TargetsOf(q, c, hosts, id) == TargetsOf(q, d, hosts, id)
  {
    forall h, f | h in hosts && InZones(h, q.provider.zones)
      ensures HostAddresses(q, c, f, hosts[h]) == HostAddresses(q, d, f, hosts[h])
    {
      AddressesAlike(q, c, d, f, hosts[h]);
    }
    hide HostAddresses, InZones, SameHosts, AllResolve;
  }

  lemma RecordsAlike(q: Query, c: State, d: State, hosts: map<string, set<Name>>, s: Settings)
    requires SameHosts(c, d, hosts) && AllResolve(q, c, hosts)
    ensures RecordList(q, c, hosts, s) == RecordList(q, d, hosts, s)
  {
    hide SameHosts, AllResolve, RecordIds, TargetsOf, SortedStrings, StrictTotal, StrictlySorted, IdLess;
    IdsAlike(q, c, d, hosts);
    assert StrictTotal(IdLess) by { Orders(); }
    var ids := SortSet(IdLess, RecordIds(q, c, hosts));
    SortSetSorts(IdLess, RecordIds(q, c, hosts));
    forall i | 0 <= i < |ids| ensures RecordAt(q, c, hosts, s, ids[i]) == RecordAt(q, d, hosts, s, ids[i]) {
      assert ids[i] in ids;
    }
    hide RecordAt;
    assert RecordList(q, c, hosts, s) == RecordList(q, d, hosts, s);
  }

  ghost predicate SameProvider(c: State, d: State, n: string) {
    (n in c.providers <==> n in d.providers) && ProviderAt(c, n) == ProviderAt(d, n)
  }

  lemma PublishedAlike(c: State, d: State, opts: Parsed, hosts: map<string, set<Name>>)
    requires SameHosts(c, d, hosts) && forall n :: n in opts.providers ==> SameProvider(c, d, n)
    ensures Published(c, opts, hosts) == Published(d, opts, hosts)
  {
    assert Selected(c, opts) == Selected(d, opts);
    forall n | n in Selected(c, opts)
      ensures
        AllResolve(QueryFor(ProviderAt(c, n), opts), c, hosts) <==>
          AllResolve(QueryFor(ProviderAt(d, n), opts), d, hosts)
    {
      HostsAlike(QueryFor(ProviderAt(c, n), opts), c, d, hosts);
    }
    if Published(c, opts, hosts).Some? {
      var result := Published(c, opts, hosts).value;
      var names := SortedStrings(Selected(c, opts));
      SortedStringsLists(Selected(c, opts));
      hide SameHosts, AllResolve, RecordList, PropertyList, Metadata, SortedStrings;
      forall i | 0 <= i < |result|
        ensures result[i] == PublicationFor(d, names[i], ProviderAt(d, names[i]), opts, hosts)
      {
        assert names[i] in names;
        var p := ProviderAt(c, names[i]);
        RecordsAlike(QueryFor(p, opts), c, d, hosts, SettingsFor(p, opts));
      }
      hide PublicationFor;
      PublishedIs(d, opts, hosts, result);
    }
  }

  ghost predicate SameAt<K(!new), V>(a: map<K, V>, b: map<K, V>, k: K) {
    (k in a <==> k in b) && (k in a ==> a[k] == b[k])
  }

  /** Everything one Ingress reads is the same, so its publications are. */
  lemma IngressAlike(ps: Parsers, c: State, d: State, ns: string, ing: Ingress)
    requires ClassName(ing) != "" ==> SameAt(c.ingressClasses, d.ingressClasses, ClassName(ing))
    requires forall b :: b in AllBackends(ns, ing) ==> SameBackend(c, d, b)
    requires forall n :: n in IngressProviders(c, ing) ==> SameProvider(c, d, n)
    ensures IngressOutcome(ps, c, ns, ing) == IngressOutcome(ps, d, ns, ing)
  {
    hide ClassName, Inherited, AllBackends, SameBackend, SameProvider, IngressHosts, Published;
    var annotations := IngressAnnotations(c, ing);
    assert annotations == IngressAnnotations(d, ing);
    if annotations.Some? && Parse(ps, annotations.value).Some? {
      var opts := Parse(ps, annotations.value).value;
      OptionProviders(ps, annotations.value);
      hide Parse;
      var hosts := IngressHosts(ns, ing, opts.hostnames);
      if hosts.Some? {
        forall h, b | h in hosts.value && b in hosts.value[h] ensures SameBackend(c, d, b) {
          IngressHostBackends(ns, ing, opts.hostnames, h);
        }
        PublishedAlike(c, d, opts, hosts.value);
      }
    }
  }

  function IngressProviders(c: State, ing: Ingress): set<string> {
    var annotations := IngressAnnotations(c, ing);
    if annotations.Some? then ProviderTokens(annotations.value) else {}
  }

  lemma OptionProviders(ps: Parsers, values: Annotations)
    requires Parse(ps, values).Some?
    ensures forall n :: n in Parse(ps, values).value.providers <==> n in ProviderTokens(values)
  {
    SortedStringsLists(ItemsAt(values, PROVIDERS));
    hide SortedStrings, SortedFamilies, Tokens, NormalizeHostname, FamilyOf;
  }

  lemma IngressHostBackends(ns: string, ing: Ingress, overrides: seq<string>, h: string)
    requires IngressHosts(ns, ing, overrides).Some? && h in IngressHosts(ns, ing, overrides).value
    ensures IngressHosts(ns, ing, overrides).value[h] <= AllBackends(ns, ing)
  {
    hide UsedBackends, NormalizeHostname;
  }

  lemma PathKeys(ns: string, paths: seq<Option<string>>, b: Name)
    requires b in PathBackends(ns, paths)
    ensures Key(b) in ServiceKeys(ns, paths)
  {
    var p :| p in paths && ServiceBackend(ns, p) == Some(b);
  }

  /** Every backend of an Ingress is indexed. */
  lemma IngressBackendIndexed(ns: string, ing: Ingress, b: Name)
    requires b in AllBackends(ns, ing)
    ensures Key(b) in IngressBackendKeys(ns, ing)
  {
    var own := ServiceBackend(ns, ing.defaultService);
    if own == Some(b) {
      assert ing.defaultService in [ing.defaultService];
      assert Key(b) in ServiceKeys(ns, [ing.defaultService]);
    } else {
      hide ServiceKeys;
      var r :| r in ing.rules && b in UsedBackends(ns, r);
      PathKeys(ns, r.paths.value, b);
      assert Key(b) in RuleKeys(ns, r);
    }
  }

  /** One changed object and a backend none of whose reads involves it. */
  lemma BackendUntouched(c: State, d: State, at: Dependency, b: Name, keys: set<string>)
    requires Stored(c) && OnlyAt(c, d, at) && Key(b) in keys
    requires at.ServiceAt? ==> Key(at.key) !in keys
    requires at.SliceAt? ==> !SliceServes(c, at.key, keys) && !SliceServes(d, at.key, keys)
    requires at.NodeAt? ==> !NodeServes(d, at.name, keys)
    ensures SameBackend(c, d, b)
  {
    if b in c.services {
      match at {
        case SliceAt(key) => SliceUntouched(c, d, key, b, keys);
        case NodeAt(name) => NodeUntouched(c, d, name, b, keys);
        case _ =>
      }
    }
  }

  lemma SliceUntouched(c: State, d: State, key: Name, b: Name, keys: set<string>)
    requires Key(b) in keys && b.name != "" && b.namespace != ""
    requires SameElsewhere(c.slices, d.slices, key) && c.nodes == d.nodes
    requires !SliceServes(c, key, keys) && !SliceServes(d, key, keys)
    ensures ReadyNodes(c, b) == ReadyNodes(d, b)
  {
    hide NodesOf;
    assert key in c.slices ==> !SliceOf(key, c.slices[key], b);
    assert key in d.slices ==> !SliceOf(key, d.slices[key], b);
    forall k | k != key && k in c.slices ensures k in d.slices && c.slices[k] == d.slices[k] { }
    forall k | k != key && k in d.slices ensures k in c.slices && c.slices[k] == d.slices[k] { }
  }

  lemma NodeUntouched(c: State, d: State, name: string, b: Name, keys: set<string>)
    requires Key(b) in keys && b.name != "" && b.namespace != "" && c.slices == d.slices
    requires !NodeServes(d, name, keys)
    ensures ReadyNodes(c, b) == ReadyNodes(d, b) && name !in ReadyNodes(c, b)
  {
    forall k | k in c.slices && SliceOf(k, c.slices[k], b) ensures name !in NodesOf(c.slices[k].endpoints) {
      assert SliceServes(d, k, keys);
      assert name !in EndpointNodes(d.slices[k]);
    }
    hide NodesOf;
  }

  lemma IngressTokens(c: State, ing: Ingress, n: string)
    requires n in IngressProviders(c, ing)
    ensures n in ProviderTokens(ing.annotations) ||
            (ClassName(ing) in c.ingressClasses && n in ProviderTokens(c.ingressClasses[ClassName(ing)])
                && ClassName(ing) in IngressClassKeys(ing))
  {
    hide Tokens, IsRelevant;
  }

  lemma IngressSameBackends(c: State, d: State, at: Dependency, ns: string, ing: Ingress)
    requires Stored(c) && OnlyAt(c, d, at) && !IngressMapped(c, d, at, ns, ing)
    ensures forall b :: b in AllBackends(ns, ing) ==> SameBackend(c, d, b)
  {
    hide IngressBackendKeys, AllBackends, SameBackend, SliceServes, NodeServes, ProviderTokens, OnlyAt;
    hide IngressClassKeys;
    forall b | b in AllBackends(ns, ing) ensures SameBackend(c, d, b) {
      IngressBackendIndexed(ns, ing, b);
      BackendUntouched(c, d, at, b, IngressBackendKeys(ns, ing));
    }
  }

  lemma IngressSameRest(c: State, d: State, at: Dependency, ns: string, ing: Ingress)
    requires OnlyAt(c, d, at) && !IngressMapped(c, d, at, ns, ing)
    ensures ClassName(ing) != "" ==> SameAt(c.ingressClasses, d.ingressClasses, ClassName(ing))
    ensures forall n :: n in IngressProviders(c, ing) ==> SameProvider(c, d, n)
  {
    hide IngressBackendKeys, SliceServes, NodeServes, ProviderTokens, IngressProviders;
    forall n | n in IngressProviders(c, ing) ensures SameProvider(c, d, n) {
      IngressTokens(c, ing, n);
    }
  }

  /** INDEX COMPLETENESS for Ingresses. If a change of one object changes what an Ingress publishes, the
      Ingress is mapped from that object, as it was or as it is. */
  lemma IngressComplete(ps: Parsers, c: State, d: State, at: Dependency, ns: string, ing: Ingress)
    requires Stored(c) && Stored(d) && OnlyAt(c, d, at)
    ensures IngressOutcome(ps, c, ns, ing) != IngressOutcome(ps, d, ns, ing) ==> IngressMapped(c, d, at, ns, ing)
  {
    hide IngressMapped, OnlyAt, AllBackends, IngressOutcome, SameBackend, SameProvider, IngressProviders;
    hide ClassName, SameAt;
    if !IngressMapped(c, d, at, ns, ing) {
      IngressSameBackends(c, d, at, ns, ing);
      IngressSameRest(c, d, at, ns, ing);
      IngressAlike(ps, c, d, ns, ing);
    }
  }

  function RouteProviders(annotations: Option<Annotations>): set<string> {
    if annotations.Some? then ProviderTokens(annotations.value) else {}
  }

  /** Everything one route reads is the same, so its publications are. */
  lemma RouteAlike(ps: Parsers, c: State, d: State, ns: string, route: Route)
    requires Chains(c, ns, route) == Chains(d, ns, route)
    requires RouteBackends(c, ns, route) == RouteBackends(d, ns, route)
    requires forall b :: b in RouteBackends(c, ns, route) ==> SameBackend(c, d, b)
    requires forall n :: n in RouteProviders(RouteAnnotations(c, ns, route)) ==> SameProvider(c, d, n)
    ensures RouteOutcome(ps, c, ns, route) == RouteOutcome(ps, d, ns, route)
  {
    hide Merged, SameBackend, SameProvider, Published, Chains, Agreed;
    var annotations := RouteAnnotations(c, ns, route);
    assert annotations == RouteAnnotations(d, ns, route);
    hide RouteAnnotations;
    if annotations.Some? && Parse(ps, annotations.value).Some? {
      var opts := Parse(ps, annotations.value).value;
      OptionProviders(ps, annotations.value);
      hide Parse;
      var hosts := RouteHosts(c, ns, route, opts.hostnames);
      SameRouteHosts(c, d, ns, route, opts.hostnames);
      if hosts.Some? {
        forall h, b | h in hosts.value && b in hosts.value[h] ensures SameBackend(c, d, b) {
          assert hosts.value[h] == RouteBackends(c, ns, route);
        }
        hide RouteHosts;
        PublishedAlike(c, d, opts, hosts.value);
      }
    }
  }

  lemma SameRouteHosts(c: State, d: State, ns: string, route: Route, overrides: seq<string>)
    requires RouteBackends(c, ns, route) == RouteBackends(d, ns, route)
    ensures RouteHosts(c, ns, route, overrides) == RouteHosts(d, ns, route, overrides)
  {
    hide RouteBackends, RouteHostnames;
  }

  lemma RouteBackendIndexed(c: State, ns: string, route: Route, b: Name)
    requires b in RouteBackends(c, ns, route)
    ensures Key(b) in RouteBackendKeys(ns, route)
  {
    hide Flatten, Granted;
  }

  /** Two states alike in the gateways a route has for parents and in their classes. */
  lemma ChainsAlike(c: State, d: State, at: Dependency, ns: string, route: Route)
    requires OnlyAt(c, d, at)
    requires at.GatewayAt? || at.GatewayClassAt? ==> !RouteMapped(c, d, at, ns, route)
    ensures Chains(c, ns, route) == Chains(d, ns, route)
  {
    forall ref | ref in route.parents && GatewayRef(ref) ensures Chain(c, ns, route, ref) == Chain(d, ns, route, ref) {
      assert Key(RefName(ns, ref)) in RouteParentKeys(ns, route);
      hide Merged, RouteParentKeys;
      assert at.GatewayClassAt? && RefName(ns, ref) in d.gateways ==> GatewayServes(d, RefName(ns, ref), ns, route);
    }
    hide Chain;
  }

  lemma {:induction false} NamespaceOfKey(b: Name)
    requires '/' !in b.namespace
    ensures BeforeSlash(Key(b)) == b.namespace
  {
    TextBeforeSlash(b.namespace, b.name);
    assert Key(b) == b.namespace + ("/" + b.name);
  }

  lemma {:induction false} TextBeforeSlash(head: string, tail: string)
    requires '/' !in head
    ensures BeforeSlash(head + ("/" + tail)) == head
  {
    if head != "" {
      TextBeforeSlash(head[1..], tail);
      assert (head + ("/" + tail))[1..] == head[1..] + ("/" + tail);
      assert head == [head[0]] + head[1..];
    }
  }

  /** No reference to a Service spells out an empty namespace. */
  ghost predicate NamespacedRefs(ns: string, route: Route) {
    forall ref :: ref in Flatten(route.rules) && ServiceRef(ref) && RefName(ns, ref).namespace != ns ==>
      RefName(ns, ref).namespace != ""
  }

  lemma GrantUntouched(c: State, d: State, key: Name, ns: string, route: Route, ref: Ref)
    requires Stored(c) && Stored(d) && SameElsewhere(c.grants, d.grants, key)
    requires NamespacedRefs(ns, route) && key.namespace !in RouteBackendNamespaces(ns, route)
    requires ref in Flatten(route.rules) && ServiceRef(ref) && RefName(ns, ref).namespace != ns
    ensures Granted(c, route.kind, ns, RefName(ns, ref)) <==> Granted(d, route.kind, ns, RefName(ns, ref))
  {
    var b := RefName(ns, ref);
    assert Key(b) in RouteBackendKeys(ns, route);
    assert BeforeSlash(Key(b)) in RouteBackendNamespaces(ns, route);
    if key in c.grants || key in d.grants {
      if b.namespace == key.namespace { NamespaceOfKey(b); }
      assert !Listed(b.namespace, key);
    }
    hide Permits, RouteBackendNamespaces, RouteBackendKeys, Flatten, BeforeSlash;
    forall k | k in c.grants && Listed(b.namespace, k) ensures k in d.grants && c.grants[k] == d.grants[k] { }
    forall k | k in d.grants && Listed(b.namespace, k) ensures k in c.grants && c.grants[k] == d.grants[k] { }
  }

  lemma RouteBackendsAlike(c: State, d: State, at: Dependency, ns: string, route: Route)
    requires Stored(c) && Stored(d) && OnlyAt(c, d, at)
    requires at.GrantAt? ==> NamespacedRefs(ns, route) && at.key.namespace !in RouteBackendNamespaces(ns, route)
    ensures RouteBackends(c, ns, route) == RouteBackends(d, ns, route)
  {
    hide RouteBackendNamespaces, NamespacedRefs, Flatten;
    forall ref | ref in Flatten(route.rules)
      ensures Usable(c, route.kind, ns, ref) <==> Usable(d, route.kind, ns, ref)
    {
      if at.GrantAt? && ServiceRef(ref) && RefName(ns, ref).namespace != ns {
        GrantUntouched(c, d, at.key, ns, route, ref);
      }
    }
    hide Usable;
  }

  lemma RouteTokens(c: State, ns: string, route: Route, n: string)
    requires n in RouteProviders(RouteAnnotations(c, ns, route))
    ensures
      || n in ProviderTokens(route.annotations)
      || (exists g :: GatewayServes(c, g, ns, route) && n in ProviderTokens(c.gateways[g].annotations))
      || (exists g :: GatewayServes(c, g, ns, route) && c.gateways[g].className in c.gatewayClasses
                      && n in ProviderTokens(c.gatewayClasses[c.gateways[g].className]))
  {
    hide Tokens, Merged;
    var values := RouteAnnotations(c, ns, route).value;
    if Chains(c, ns, route) == {} {
      var at := MergedAt([route.annotations], PROVIDERS);
    } else {
      AgreedIs(Chains(c, ns, route), values);
      assert Some(values) in Chains(c, ns, route);
      var ref :| ref in route.parents && GatewayRef(ref) && Chain(c, ns, route, ref) == Some(values);
      var g := RefName(ns, ref);
      assert GatewayServes(c, g, ns, route);
      var levels := [c.gatewayClasses[c.gateways[g].className], c.gateways[g].annotations, route.annotations];
      var at := MergedAt(levels, PROVIDERS);
    }
  }

  lemma RouteSameBackends(c: State, d: State, at: Dependency, ns: string, route: Route)
    requires Stored(c) && Stored(d) && OnlyAt(c, d, at) && !RouteMapped(c, d, at, ns, route)
    requires at.GrantAt? ==> NamespacedRefs(ns, route)
    ensures RouteBackends(c, ns, route) == RouteBackends(d, ns, route)
    ensures forall b :: b in RouteBackends(c, ns, route) ==> SameBackend(c, d, b)
  {
    hide RouteBackendKeys, RouteBackendNamespaces, SameBackend, SliceServes, NodeServes, ProviderTokens, OnlyAt;
    hide RouteParentKeys, GatewayServes, NamespacedRefs, RouteBackends;
    RouteBackendsAlike(c, d, at, ns, route);
    forall b | b in RouteBackends(c, ns, route) ensures SameBackend(c, d, b) {
      RouteBackendIndexed(c, ns, route, b);
      BackendUntouched(c, d, at, b, RouteBackendKeys(ns, route));
    }
  }

  lemma RouteSameProviders(c: State, d: State, at: Dependency, ns: string, route: Route)
    requires OnlyAt(c, d, at) && !RouteMapped(c, d, at, ns, route)
    ensures forall n :: n in RouteProviders(RouteAnnotations(c, ns, route)) ==> SameProvider(c, d, n)
  {
    hide RouteBackendKeys, RouteBackendNamespaces, SliceServes, NodeServes, ProviderTokens, RouteProviders;
    hide RouteAnnotations;
    forall n | n in RouteProviders(RouteAnnotations(c, ns, route)) ensures SameProvider(c, d, n) {
      RouteTokens(c, ns, route, n);
    }
  }

  /** What the annotations of a route ask for, when they can be read. */
  ghost function RouteOptions(ps: Parsers, c: State, ns: string, route: Route): Option<Parsed> {
    var annotations := RouteAnnotations(c, ns, route);
    if annotations.None? then None else Parse(ps, annotations.value)
  }

  ghost predicate InSomeZone(c: State, opts: Parsed, route: Route) {
    exists n, h :: n in Selected(c, opts) && h in RouteHostnames(route, opts.hostnames)
        && InZones(h, ProviderAt(c, n).zones)
  }

  /** The route is enabled and one of its hostnames lies in a zone of a provider it selects. */
  ghost predicate Exposed(ps: Parsers, c: State, ns: string, route: Route) {
    var opts := RouteOptions(ps, c, ns, route);
    opts.Some? && opts.value.enabled && opts.value.providers != [] && InSomeZone(c, opts.value, route)
  }

  /** The one way a grant change can go unnoticed: a reference that spells out an empty namespace reads the
      grants of every namespace but is indexed under none of them. GrantsCovered says that it is exact. */
  ghost predicate Gap(ps: Parsers, c: State, ns: string, route: Route) {
    !NamespacedRefs(ns, route) && Exposed(ps, c, ns, route)
  }

  /** What the API server guarantees of stored routes: the Gateway API's schema gives a namespace in a
      reference at least one character. */
  ghost predicate Admitted(route: Route) {
    forall ref :: ref in Flatten(route.rules) ==> ref.namespace != Some("")
  }

  lemma AdmittedHasNoGap(ps: Parsers, c: State, ns: string, route: Route)
    requires Admitted(route)
    ensures NamespacedRefs(ns, route) && !Gap(ps, c, ns, route)
  {
    hide Flatten, Exposed;
  }

  /** Hostnames outside every zone publish nothing, whatever their backends. */
  lemma NothingInZones(q: Query, c: State, hosts: map<string, set<Name>>, s: Settings)
    requires forall h :: h in hosts ==> !InZones(h, q.provider.zones)
    ensures AllResolve(q, c, hosts) && RecordList(q, c, hosts, s) == []
  {
    hide InZones, HostAddresses;
    assert RecordIds(q, c, hosts) == {};
    hide RecordIds;
    assert StrictTotal(IdLess) by { Orders(); }
    hide StrictTotal;
    assert SortSet(IdLess, RecordIds(q, c, hosts)) == [];
  }

  lemma PublishedOutsideZones(c: State, d: State, opts: Parsed, hosts: map<string, set<Name>>,
                              others: map<string, set<Name>>)
    requires c.providers == d.providers
    requires
      forall n, h :: n in Selected(c, opts) && (h in hosts || h in others) ==> !InZones(h, ProviderAt(c, n).zones)
    ensures Published(c, opts, hosts) == Published(d, opts, others)
  {
    hide InZones, SortedStrings, AllResolve, RecordList, PropertyList, Metadata;
    var names := SortedStrings(Selected(c, opts));
    SortedStringsLists(Selected(c, opts));
    assert Selected(c, opts) == Selected(d, opts);
    forall n | n in Selected(c, opts)
      ensures AllResolve(QueryFor(ProviderAt(c, n), opts), c, hosts)
      ensures AllResolve(QueryFor(ProviderAt(d, n), opts), d, others)
      ensures
        PublicationFor(c, n, ProviderAt(c, n), opts, hosts) == PublicationFor(d, n, ProviderAt(d, n), opts, others)
    {
      var p := ProviderAt(c, n);
      NothingInZones(QueryFor(p, opts), c, hosts, SettingsFor(p, opts));
      NothingInZones(QueryFor(p, opts), d, others, SettingsFor(p, opts));
    }
    hide PublicationFor;
    var result := Published(c, opts, hosts).value;
    forall i | 0 <= i < |result|
      ensures result[i] == PublicationFor(d, names[i], ProviderAt(d, names[i]), opts, others)
    {
      assert names[i] in names;
    }
    PublishedIs(d, opts, others, result);
  }

  /** A grant changes nothing of what a route asks for. */
  lemma OptionsAlike(ps: Parsers, c: State, d: State, key: Name, ns: string, route: Route)
    requires OnlyAt(c, d, GrantAt(key))
    ensures RouteOptions(ps, c, ns, route) == RouteOptions(ps, d, ns, route) && c.providers == d.providers
  {
    hide Parse, Chains, Agreed, Merged;
    ChainsAlike(c, d, GrantAt(key), ns, route);
  }

  lemma OutcomeIs(ps: Parsers, c: State, ns: string, route: Route)
    ensures
      var opts := RouteOptions(ps, c, ns, route);
      RouteOutcome(ps, c, ns, route) ==
      if opts.None? then None else Finish(c, opts.value, RouteHosts(c, ns, route, opts.value.hostnames))
  {
    hide Parse, RouteAnnotations, Finish, RouteHosts;
  }

  /** A grant matters only to a route that is exposed. */
  lemma UnexposedAlike(ps: Parsers, c: State, d: State, key: Name, ns: string, route: Route)
    requires OnlyAt(c, d, GrantAt(key)) && !Exposed(ps, c, ns, route)
    ensures RouteOutcome(ps, c, ns, route) == RouteOutcome(ps, d, ns, route)
  {
    hide Parse, InSomeZone, Published, RouteOptions, RouteHosts, RouteOutcome, OnlyAt;
    var opts := RouteOptions(ps, c, ns, route);
    OptionsAlike(ps, c, d, key, ns, route);
    OutcomeIs(ps, c, ns, route);
    OutcomeIs(ps, d, ns, route);
    if opts.Some? && opts.value.enabled && opts.value.providers != [] {
      var hosts, others := RouteHosts(c, ns, route, opts.value.hostnames),
          RouteHosts(d, ns, route, opts.value.hostnames);
      HostsNamed(c, d, ns, route, opts.value);
      if hosts.Some? {
        NoZoneOf(c, opts.value, route, hosts.value, others.value);
        PublishedOutsideZones(c, d, opts.value, hosts.value, others.value);
      }
    }
  }

  lemma HostsNamed(c: State, d: State, ns: string, route: Route, opts: Parsed)
    ensures RouteHosts(c, ns, route, opts.hostnames).Some? <==> RouteHosts(d, ns, route, opts.hostnames).Some?
    ensures
      RouteHosts(c, ns, route, opts.hostnames).Some? ==>
        && RouteHosts(c, ns, route, opts.hostnames).value.Keys <= RouteHostnames(route, opts.hostnames)
        && RouteHosts(d, ns, route, opts.hostnames).value.Keys <= RouteHostnames(route, opts.hostnames)
  {
    hide RouteHostnames, RouteBackends, NormalizeHostname;
  }

  lemma NoZoneOf(c: State, opts: Parsed, route: Route, hosts: map<string, set<Name>>, others: map<string, set<Name>>)
    requires !InSomeZone(c, opts, route)
    requires hosts.Keys <= RouteHostnames(route, opts.hostnames) && others.Keys <= RouteHostnames(route, opts.hostnames)
    ensures forall n, h :: n in Selected(c, opts) && (h in hosts || h in others) ==> !InZones(h, ProviderAt(c, n).zones)
  {
    hide RouteHostnames, InZones, Selected, ProviderAt;
  }

  /** INDEX COMPLETENESS for Gateway routes. If a change of one object changes what a route publishes, the
      route is mapped from that object, unless the change is of a grant and the route has the gap. */
  lemma RouteComplete(ps: Parsers, c: State, d: State, at: Dependency, ns: string, route: Route)
    requires Stored(c) && Stored(d) && OnlyAt(c, d, at)
    ensures
      RouteOutcome(ps, c, ns, route) != RouteOutcome(ps, d, ns, route) ==>
        RouteMapped(c, d, at, ns, route) || (at.GrantAt? && Gap(ps, c, ns, route))
  {
    hide RouteMapped, OnlyAt, RouteBackends, RouteOutcome, SameBackend, SameProvider, RouteProviders;
    hide Chains, RouteAnnotations, NamespacedRefs, Exposed;
    if at.GrantAt? && !Exposed(ps, c, ns, route) {
      UnexposedAlike(ps, c, d, at.key, ns, route);
    } else if !RouteMapped(c, d, at, ns, route) && !(at.GrantAt? && Gap(ps, c, ns, route)) {
      ChainsAlike(c, d, at, ns, route);
      RouteSameBackends(c, d, at, ns, route);
      RouteSameProviders(c, d, at, ns, route);
      RouteAlike(ps, c, d, ns, route);
    }
  }

  /** Every change of a grant, from this state, that changes what the route publishes maps the route. */
  ghost predicate GrantsCover(ps: Parsers, c: State, ns: string, route: Route) {
    forall d, key :: Stored(d) && OnlyAt(c, d, GrantAt(key)) ==>
      (RouteOutcome(ps, c, ns, route) != RouteOutcome(ps, d, ns, route) ==> RouteMapped(c, d, GrantAt(key), ns, route))
  }

  /** A name that is in no given finite set. */
  lemma {:induction false} FreshName(s: set<string>) returns (n: string)
    ensures n != "" && '/' !in n && forall x :: x in s ==> |x| < |n|
    decreases |s|
  {
    if s == {} {
      n := "a";
    } else {
      var x :| x in s;
      var rest := FreshName(s - {x});
      n := rest + seq(|x|, i => 'a');
      forall y | y in s ensures |y| < |n| {
        assert y == x || y in s - {x};
      }
    }
  }

  /** THE EXACT CONDITION for grants. From any state in which a route resolves, the grant changes that change
      its publications are all mapped if and only if no cross-namespace Service reference spells out an
      empty namespace, or no hostname of the route lies in a zone of a provider it selects. */
  lemma GrantsCovered(ps: Parsers, c: State, ns: string, route: Route)
    requires Stored(c) && RouteOutcome(ps, c, ns, route).Some?
    ensures GrantsCover(ps, c, ns, route) <==> NamespacedRefs(ns, route) || !Exposed(ps, c, ns, route)
  {
    hide RouteOutcome, RouteMapped, Exposed, OnlyAt, Stored;
    if Gap(ps, c, ns, route) {
      var ref :| ref in Flatten(route.rules) && ServiceRef(ref) && RefName(ns, ref).namespace != ns
          && RefName(ns, ref).namespace == "";
      var key, d := GrantMissed(ps, c, ns, route, ref);
    } else {
      forall d, key | Stored(d) && OnlyAt(c, d, GrantAt(key))
        ensures
          RouteOutcome(ps, c, ns, route) != RouteOutcome(ps, d, ns, route) ==>
            RouteMapped(c, d, GrantAt(key), ns, route)
      {
        RouteComplete(ps, c, d, GrantAt(key), ns, route);
      }
    }
  }

  /** A grant in a namespace the route is not indexed under lets the reference through. */
  lemma GrantElsewhere(c: State, ns: string, route: Route, ref: Ref) returns (key: Name, d: State)
    requires Stored(c) && ref in Flatten(route.rules) && ServiceRef(ref) && RefName(ns, ref).namespace == "" != ns
    ensures Stored(d) && OnlyAt(c, d, GrantAt(key)) && !RouteMapped(c, d, GrantAt(key), ns, route)
    ensures RefName(ns, ref) in RouteBackends(d, ns, route)
  {
    var elsewhere := FreshName(RouteBackendNamespaces(ns, route));
    hide RouteBackendNamespaces;
    var from, to := GrantFrom(GATEWAY_GROUP, KindName(route.kind), ns), GrantTo("", SERVICE, None);
    var grant := Grant([from], [to]);
    key := Name(elsewhere, "grant");
    d := c.(grants := c.grants[key := grant]);
    var b := RefName(ns, ref);
    assert from in grant.from && to in grant.to;
    assert Permits(grant, route.kind, ns, b.name);
    assert key in d.grants && d.grants[key] == grant && Listed(b.namespace, key);
    assert Granted(d, route.kind, ns, b);
    hide Permits, Granted, Flatten;
    assert Usable(d, route.kind, ns, ref);
  }

  /** The failing family: one more grant, in a namespace nobody would look under, and the route that resolved
      no longer does, because the backend it now reaches is in a namespace no Service is stored in. */
  lemma GrantMissed(ps: Parsers, c: State, ns: string, route: Route, ref: Ref) returns (key: Name, d: State)
    requires Stored(c) && RouteOutcome(ps, c, ns, route).Some? && Exposed(ps, c, ns, route)
    requires ref in Flatten(route.rules) && ServiceRef(ref) && RefName(ns, ref).namespace == "" != ns
    ensures Stored(d) && OnlyAt(c, d, GrantAt(key)) && !RouteMapped(c, d, GrantAt(key), ns, route)
    ensures RouteOutcome(ps, d, ns, route).None?
  {
    hide InSomeZone, Published, RouteOptions, RouteHosts, RouteOutcome, OnlyAt, RouteMapped, RouteBackends;
    hide Flatten, Stored;
    key, d := GrantElsewhere(c, ns, route, ref);
    OptionsAlike(ps, c, d, key, ns, route);
    OutcomeIs(ps, c, ns, route);
    OutcomeIs(ps, d, ns, route);
    var opts := RouteOptions(ps, c, ns, route).value;
    HostsNamed(c, d, ns, route, opts);
    Unresolved(c, d, ns, route, opts, RefName(ns, ref));
  }

  lemma Unresolved(c: State, d: State, ns: string, route: Route, opts: Parsed, b: Name)
    requires Stored(d) && b in RouteBackends(d, ns, route) && b.namespace == "" && c.providers == d.providers
    requires InSomeZone(c, opts, route) && RouteHosts(d, ns, route, opts.hostnames).Some?
    ensures Published(d, opts, RouteHosts(d, ns, route, opts.hostnames).value).None?
  {
    hide RouteBackends, RouteHostnames, InZones, NormalizeHostname, SortedStrings, PublicationFor;
    var n, h :| n in Selected(c, opts) && h in RouteHostnames(route, opts.hostnames)
        && InZones(h, ProviderAt(c, n).zones);
    var hosts := RouteHosts(d, ns, route, opts.hostnames).value;
    assert h in hosts && b in hosts[h];
    hide RouteHosts;
    assert !Resolves(QueryFor(ProviderAt(d, n), opts), d, b);
    hide Resolves;
    assert !AllResolve(QueryFor(ProviderAt(d, n), opts), d, hosts);
    hide AllResolve;
    assert n in Selected(d, opts);
  }
}
