/** Which backends a source publishes under which hostname: set comprehensions, and the loops that
    compute them. */
module Projection {
  import opened Lifecycle
  import opened Ordering
  import opened Names
  import opened Cluster

  datatype HostProjection = HostProjection(hostname: string, backends: seq<Name>)

  function Key(b: Name): string { b.namespace + "/" + b.name }

  predicate KeyBefore(a: Name, b: Name) { StringLess(Key(a), Key(b)) }

  function ServiceBackend(ns: string, service: Option<string>): Option<Name> {
    if service.None? || service.value == "" then None else Some(Name(ns, service.value))
  }

  function Optional(b: Option<Name>): set<Name> { if b.Some? then {b.value} else {} }

  /** A rule without a host or without HTTP paths is skipped. */
  predicate UsedRule(r: Rule) { r.host != "" && r.paths.Some? }

  function PathBackends(ns: string, paths: seq<Option<string>>): set<Name> {
    set p | p in paths && ServiceBackend(ns, p).Some? :: ServiceBackend(ns, p).value
  }

  predicate RuleFor(r: Rule, host: string) { UsedRule(r) && NormalizeHostname(r.host) == Some(host) }

  function UsedBackends(ns: string, r: Rule): set<Name> {
    if UsedRule(r) then PathBackends(ns, r.paths.value) else {}
  }

  function RuleHosts(rules: seq<Rule>): set<string> {
    set r | r in rules && UsedRule(r) && NormalizeHostname(r.host).Some? :: NormalizeHostname(r.host).value
  }

  function RuleBackends(ns: string, rules: seq<Rule>, host: string): set<Name> {
    set r, b | r in rules && RuleFor(r, host) && b in UsedBackends(ns, r) :: b
  }

  function AllBackends(ns: string, ing: Ingress): set<Name> {
    Optional(ServiceBackend(ns, ing.defaultService)) + (set r, b | r in ing.rules && b in UsedBackends(ns, r) :: b)
  }

  function TlsHosts(tls: seq<seq<string>>): set<string> {
    set hosts, raw | hosts in tls && raw in hosts && NormalizeHostname(raw).Some? :: NormalizeHostname(raw).value
  }

  ghost predicate GoodRules(rules: seq<Rule>) {
    forall r :: r in rules && UsedRule(r) ==> NormalizeHostname(r.host).Some?
  }

  ghost predicate GoodTls(tls: seq<seq<string>>) {
    forall hosts, raw :: hosts in tls && raw in hosts ==> NormalizeHostname(raw).Some?
  }

  /** A hostname of a rule has the backends of its rules; a hostname of the TLS section only, the
      default backend. */
  function HostBackends(ns: string, ing: Ingress, host: string): set<Name> {
    if host in RuleHosts(ing.rules) then RuleBackends(ns, ing.rules, host)
    else if host in TlsHosts(ing.tls) then Optional(ServiceBackend(ns, ing.defaultService))
    else {}
  }

  /** What an Ingress publishes: nothing at all when a hostname is invalid. */
  ghost function IngressHosts(ns: string, ing: Ingress, overrides: seq<string>): Option<map<string, set<Name>>> {
    if !GoodRules(ing.rules) then None
    else if overrides != [] then Some(map h | h in overrides :: AllBackends(ns, ing))
    else if !GoodTls(ing.tls) then None
    else Some(map h | h in RuleHosts(ing.rules) + TlsHosts(ing.tls) && HostBackends(ns, ing, h) != {} ::
      HostBackends(ns, ing, h))
  }

  function Hostnames(list: seq<HostProjection>): (r: seq<string>)
    ensures |r| == |list| && forall i :: 0 <= i < |r| ==> r[i] == list[i].hostname
  {
    seq(|list|, i requires 0 <= i < |list| => list[i].hostname)
  }

  /** A list of projections says the same as a map from hostnames to backends. */
  ghost predicate Projects(list: seq<HostProjection>, hosts: map<string, set<Name>>) {
    && Elems(Hostnames(list)) == hosts.Keys
    && forall i :: 0 <= i < |list| ==> list[i].hostname in hosts && Elems(list[i].backends) == hosts[list[i].hostname]
  }

  lemma KeyOrder()
    ensures StrictWeak(KeyBefore)
  {
    StringOrder();
    TotalIsWeak(StringLess);
    forall x: Name, y: Name | KeyBefore(x, y) ensures !KeyBefore(y, x) {
      assert StringLess(Key(x), Key(y));
    }
    forall x: Name, y: Name, z: Name | !KeyBefore(x, y) && !KeyBefore(y, z) ensures !KeyBefore(x, z) {
      assert !StringLess(Key(x), Key(y)) && !StringLess(Key(y), Key(z));
    }
  }

  /** `backendSet` */
  method BackendSet(values: set<Name>) returns (r: seq<Name>)
    ensures Elems(r) == values && Sorted(KeyBefore, r)
  {
    KeyOrder();
    var list := ListSet(values);
    r := Sort(KeyBefore, list);
    assert Elems(r) == Elems(list);
  }

  /** The same backends under each of some hostnames. */
  method Spread(hostnames: seq<string>, all: set<Name>) returns (r: seq<HostProjection>)
    ensures Projects(r, map h | h in hostnames :: all) && Hostnames(r) == hostnames
  {
    var backends := BackendSet(all);
    r := [];
    for i := 0 to |hostnames|
      invariant |r| == i && forall j :: 0 <= j < i ==> r[j] == HostProjection(hostnames[j], backends)
    {
      r := r + [HostProjection(hostnames[i], backends)];
    }
    assert Hostnames(r) == hostnames;
  }

  function NonEmpty(values: map<string, set<Name>>, names: set<string>): map<string, set<Name>> {
    map h | h in values && h in names && values[h] != {} :: values[h]
  }

  lemma ProjectsSnoc(list: seq<HostProjection>, hosts: map<string, set<Name>>, p: HostProjection)
    requires Projects(list, hosts) && StrictlySorted(StringLess, Hostnames(list))
    requires forall h :: h in hosts ==> StringLess(h, p.hostname)
    ensures Projects(list + [p], hosts[p.hostname := Elems(p.backends)])
    ensures StrictlySorted(StringLess, Hostnames(list + [p]))
  {
    var names := Hostnames(list);
    assert Hostnames(list + [p]) == names + [p.hostname];
    assert Elems(names + [p.hostname]) == Elems(names) + {p.hostname};
    forall j | 0 <= j < |names| ensures StringLess(names[j], p.hostname) {
      assert names[j] in Elems(names);
    }
    assert !StringLess(p.hostname, p.hostname) by { StringTrichotomy(p.hostname, p.hostname); }
  }

  lemma NonEmptyStep(values: map<string, set<Name>>, names: seq<string>, i: nat)
    requires i < |names| && StrictlySorted(StringLess, names) && names[i] in values
    ensures
      var before := NonEmpty(values, Elems(names[..i]));
      && NonEmpty(values, Elems(names[..i + 1])) ==
         (if values[names[i]] != {} then before[names[i] := values[names[i]]] else before)
      && forall h :: h in before ==> StringLess(h, names[i])
  {
    var before := NonEmpty(values, Elems(names[..i]));
    assert Elems(names[..i + 1]) == Elems(names[..i]) + {names[i]} by {
      assert names[..i + 1] == names[..i] + [names[i]];
    }
    hide StringLess;
    forall h | h in before ensures StringLess(h, names[i]) {
      assert h in names[..i];
    }
    hide StrictlySorted;
  }

  /** `projectionSet`: drops hostnames without backends and lists the rest sorted. */
  method ProjectionSet(values: map<string, set<Name>>) returns (r: seq<HostProjection>)
    ensures Projects(r, NonEmpty(values, values.Keys))
    ensures StrictlySorted(StringLess, Hostnames(r))
  {
    hide StringLess;
    var names := StringSet(values.Keys);
    SortedStringsLists(values.Keys);
    r := [];
    assert Projects(r, NonEmpty(values, Elems(names[..0])));
    hide Projects, NonEmpty, StrictlySorted;
    for i := 0 to |names|
      invariant Projects(r, NonEmpty(values, Elems(names[..i])))
      invariant StrictlySorted(StringLess, Hostnames(r))
    {
      assert names[i] in values;
      NonEmptyStep(values, names, i);
      if values[names[i]] != {} {
        var backends := BackendSet(values[names[i]]);
        ProjectsSnoc(r, NonEmpty(values, Elems(names[..i])), HostProjection(names[i], backends));
        r := r + [HostProjection(names[i], backends)];
      }
    }
    assert names[..|names|] == names;
  }

  /** The map the loop over the rules builds. */
  function RuleMap(ns: string, rules: seq<Rule>): map<string, set<Name>> {
    map h | h in RuleHosts(rules) :: RuleBackends(ns, rules, h)
  }

  function Gathered(ns: string, rules: seq<Rule>): set<Name> {
    set r, b | r in rules && b in UsedBackends(ns, r) :: b
  }

  lemma RuleHostsStep(rules: seq<Rule>, r: Rule)
    ensures RuleHosts(rules + [r]) ==
            RuleHosts(rules) + if UsedRule(r) && NormalizeHostname(r.host).Some?
                then {NormalizeHostname(r.host).value} else {}
  {
    hide NormalizeHostname;
    forall x ensures x in rules + [r] <==> x in rules || x == r { }
  }

  lemma RuleBackendsStep(ns: string, rules: seq<Rule>, r: Rule, h: string)
    ensures
      RuleBackends(ns, rules + [r], h) == RuleBackends(ns, rules, h) + if RuleFor(r, h) then UsedBackends(ns, r) else {}
  {
    hide NormalizeHostname, UsedBackends;
    forall x ensures x in rules + [r] <==> x in rules || x == r { }
  }

  lemma GatheredStep(ns: string, rules: seq<Rule>, r: Rule)
    ensures Gathered(ns, rules + [r]) == Gathered(ns, rules) + UsedBackends(ns, r)
  {
    hide UsedBackends;
    forall x ensures x in rules + [r] <==> x in rules || x == r { }
  }

  lemma NoRuleFor(ns: string, rules: seq<Rule>, h: string)
    requires h !in RuleHosts(rules)
    ensures RuleBackends(ns, rules, h) == {}
  {
  }

  lemma RuleMapStep(ns: string, rules: seq<Rule>, r: Rule)
    ensures !UsedRule(r) ==> RuleMap(ns, rules + [r]) == RuleMap(ns, rules)
    ensures
      UsedRule(r) && NormalizeHostname(r.host).Some? ==>
        var h := NormalizeHostname(r.host).value;
        var before := if h in RuleMap(ns, rules) then RuleMap(ns, rules)[h] else {};
        RuleMap(ns, rules + [r]) == RuleMap(ns, rules)[h := before + UsedBackends(ns, r)]
  {
    RuleHostsStep(rules, r);
    hide NormalizeHostname, UsedBackends, RuleBackends, RuleHosts, UsedRule;
    var more := RuleMap(ns, rules + [r]);
    forall h | h in more
      ensures more[h] == RuleBackends(ns, rules, h) + if RuleFor(r, h) then UsedBackends(ns, r) else {}
      ensures h !in RuleHosts(rules) ==> RuleBackends(ns, rules, h) == {}
    {
      RuleBackendsStep(ns, rules, r, h);
      if h !in RuleHosts(rules) { NoRuleFor(ns, rules, h); }
    }
    if UsedRule(r) && NormalizeHostname(r.host).Some? {
      var h := NormalizeHostname(r.host).value;
      assert RuleFor(r, h);
      forall g | g in more ensures RuleFor(r, g) <==> g == h { }
      var before := if h in RuleMap(ns, rules) then RuleMap(ns, rules)[h] else {};
      var expected := RuleMap(ns, rules)[h := before + UsedBackends(ns, r)];
      assert more.Keys == expected.Keys;
      forall g | g in more ensures more[g] == expected[g] { }
      assert more == expected;
    } else if !UsedRule(r) {
      forall g | g in more ensures more[g] == RuleMap(ns, rules)[g] { assert !RuleFor(r, g); }
      assert more == RuleMap(ns, rules);
    }
  }

  method CollectPaths(ns: string, paths: seq<Option<string>>) returns (r: set<Name>)
    ensures r == PathBackends(ns, paths)
  {
    r := {};
    for i := 0 to |paths|
      invariant r == PathBackends(ns, paths[..i])
    {
      assert paths[..i + 1] == paths[..i] + [paths[i]];
      var backend := ServiceBackend(ns, paths[i]);
      if backend.Some? {
        r := r + {backend.value};
      }
    }
    assert paths[..|paths|] == paths;
  }

  /** The loop over the rules. */
  method CollectRules(ns: string, rules: seq<Rule>) returns (ok: bool, byHost: map<string, set<Name>>, all: set<Name>)
    ensures ok <==> GoodRules(rules)
    ensures ok ==> byHost == RuleMap(ns, rules) && all == Gathered(ns, rules)
  {
    ok, byHost, all := true, map[], {};
    hide NormalizeHostname, PathBackends;
    for i := 0 to |rules|
      invariant GoodRules(rules[..i])
      invariant byHost == RuleMap(ns, rules[..i]) && all == Gathered(ns, rules[..i])
    {
      assert rules[..i + 1] == rules[..i] + [rules[i]];
      var rule := rules[i];
      GatheredStep(ns, rules[..i], rule);
      RuleMapStep(ns, rules[..i], rule);
      hide RuleMap, Gathered;
      if rule.host == "" || rule.paths.None? {
        continue;
      }
      var host := NormalizeHostname(rule.host);
      if host.None? {
        assert rule in rules;
        return false, byHost, all;
      }
      if host.value !in byHost {
        byHost := byHost[host.value := {}];
      }
      var backends := CollectPaths(ns, rule.paths.value);
      byHost := byHost[host.value := byHost[host.value] + backends];
      all := all + backends;
    }
    assert rules[..|rules|] == rules;
  }

  /** The hostnames of the TLS section that no rule has get the default backend. */
  function WithTls(byHost: map<string, set<Name>>, hosts: set<string>, backend: Option<Name>): map<string, set<Name>> {
    (map h | h in hosts && backend.Some? :: {backend.value}) + byHost
  }

  function RawHosts(hosts: seq<string>): set<string> {
    set raw | raw in hosts && NormalizeHostname(raw).Some? :: NormalizeHostname(raw).value
  }

  lemma RawHostsStep(hosts: seq<string>, raw: string)
    requires NormalizeHostname(raw).Some?
    ensures RawHosts(hosts + [raw]) == RawHosts(hosts) + {NormalizeHostname(raw).value}
  {
    hide NormalizeHostname;
    forall x ensures x in hosts + [raw] <==> x in hosts || x == raw { }
  }

  lemma TlsHostsStep(tls: seq<seq<string>>, hosts: seq<string>)
    ensures TlsHosts(tls + [hosts]) == TlsHosts(tls) + RawHosts(hosts)
  {
    hide NormalizeHostname;
    forall x ensures x in tls + [hosts] <==> x in tls || x == hosts { }
  }

  lemma WithTlsStep(rules: map<string, set<Name>>, done: set<string>, host: string, backend: Option<Name>)
    ensures
      var before := WithTls(rules, done, backend);
      WithTls(rules, done + {host}, backend) ==
      if host !in before && backend.Some? then before[host := {backend.value}] else before
  {
  }

  /** One TLS entry of the loop over the TLS section. */
  method CollectTls(byHost: map<string, set<Name>>, hosts: seq<string>, backend: Option<Name>,
                    ghost rules: map<string, set<Name>>, ghost done: set<string>)
    returns (ok: bool, r: map<string, set<Name>>)
    requires byHost == WithTls(rules, done, backend)
    ensures ok <==> forall raw :: raw in hosts ==> NormalizeHostname(raw).Some?
    ensures ok ==> r == WithTls(rules, done + RawHosts(hosts), backend)
  {
    hide NormalizeHostname, WithTls, RawHosts;
    ok, r := true, byHost;
    ghost var seen := done;
    assert RawHosts(hosts[..0]) == {} by { NoRawHosts(); }
    for i := 0 to |hosts|
      invariant forall j :: 0 <= j < i ==> NormalizeHostname(hosts[j]).Some?
      invariant seen == done + RawHosts(hosts[..i])
      invariant r == WithTls(rules, seen, backend)
    {
      var host := NormalizeHostname(hosts[i]);
      if host.None? {
        assert hosts[i] in hosts;
        return false, r;
      }
      assert hosts[..i + 1] == hosts[..i] + [hosts[i]];
      RawHostsStep(hosts[..i], hosts[i]);
      WithTlsStep(rules, seen, host.value, backend);
      seen := seen + {host.value};
      if host.value !in r && backend.Some? {
        r := r[host.value := {backend.value}];
      }
    }
    assert hosts[..|hosts|] == hosts;
  }

  lemma NoRawHosts()
    ensures RawHosts([]) == {}
  {
  }

  method IngressProjection(ns: string, ing: Ingress, overrides: seq<string>) returns (r: Option<seq<HostProjection>>)
    ensures r.None? <==> IngressHosts(ns, ing, overrides).None?
    ensures r.Some? ==> Projects(r.value, IngressHosts(ns, ing, overrides).value)
    ensures r.Some? && StrictlySorted(StringLess, overrides) ==> StrictlySorted(StringLess, Hostnames(r.value))
  {
    hide NormalizeHostname, RuleBackends, RuleHosts, TlsHosts, UsedBackends, Projects, StrictlySorted;
    var default := ServiceBackend(ns, ing.defaultService);
    var ok, byHost, all := CollectRules(ns, ing.rules);
    if !ok {
      return None;
    }
    if overrides != [] {
      assert Optional(default) + all == AllBackends(ns, ing);
      var list := Spread(overrides, Optional(default) + all);
      return Some(list);
    }
    ghost var rules := byHost;
    NoTlsHosts();
    for i := 0 to |ing.tls|
      invariant forall j :: 0 <= j < i ==> forall raw :: raw in ing.tls[j] ==> NormalizeHostname(raw).Some?
      invariant byHost == WithTls(rules, TlsHosts(ing.tls[..i]), default)
    {
      assert ing.tls[..i + 1] == ing.tls[..i] + [ing.tls[i]];
      TlsHostsStep(ing.tls[..i], ing.tls[i]);
      ok, byHost := CollectTls(byHost, ing.tls[i], default, rules, TlsHosts(ing.tls[..i]));
      if !ok {
        assert ing.tls[i] in ing.tls;
        return None;
      }
    }
    assert ing.tls[..|ing.tls|] == ing.tls;
    var list := ProjectionSet(byHost);
    TlsResult(ns, ing, byHost);
    r := Some(list);
  }

  lemma NoTlsHosts()
    ensures TlsHosts([]) == {}
  {
  }

  lemma TlsResult(ns: string, ing: Ingress, byHost: map<string, set<Name>>)
    requires GoodRules(ing.rules) && GoodTls(ing.tls)
    requires byHost == WithTls(RuleMap(ns, ing.rules), TlsHosts(ing.tls), ServiceBackend(ns, ing.defaultService))
    ensures IngressHosts(ns, ing, []) == Some(NonEmpty(byHost, byHost.Keys))
  {
    hide NormalizeHostname, RuleBackends, RuleHosts, TlsHosts, GoodRules, GoodTls;
    var expected := IngressHosts(ns, ing, []).value;
    var got := NonEmpty(byHost, byHost.Keys);
    forall h ensures h in expected <==> h in got { }
    forall h | h in expected ensures expected[h] == got[h] { }
    assert expected == got;
  }

  /** The references of all rules, in rule order. */
  function Flatten(rules: seq<seq<Ref>>): seq<Ref> {
    if rules == [] then [] else Flatten(rules[..|rules| - 1]) + rules[|rules| - 1]
  }

  method RouteBackendRefs(route: Route) returns (refs: seq<Ref>)
    ensures refs == Flatten(route.rules)
  {
    refs := [];
    for i := 0 to |route.rules|
      invariant refs == Flatten(route.rules[..i])
    {
      assert route.rules[..i + 1][..i] == route.rules[..i];
      for j := 0 to |route.rules[i]|
        invariant refs == Flatten(route.rules[..i]) + route.rules[i][..j]
      {
        refs := refs + [route.rules[i][j]];
      }
    }
    assert route.rules[..|route.rules|] == route.rules;
  }

  /** A reference to a core Service, spelled out or by default. */
  predicate ServiceRef(ref: Ref) {
    !((ref.group.Some? && ref.group.value != "") || (ref.kind.Some? && ref.kind.value != SERVICE))
  }

  function RefName(ns: string, ref: Ref): Name {
    Name(if ref.namespace.Some? then ref.namespace.value else ns, ref.name)
  }

  predicate FromMatches(f: GrantFrom, kind: RouteKind, ns: string) {
    f.group == GATEWAY_GROUP && f.kind == KindName(kind) && f.namespace == ns
  }

  predicate ToMatches(t: GrantTo, name: string) {
    t.group == "" && t.kind == SERVICE && (t.name.None? || t.name.value == name)
  }

  ghost predicate Permits(g: Grant, kind: RouteKind, ns: string, name: string) {
    (exists f :: f in g.from && FromMatches(f, kind, ns)) && (exists t :: t in g.to && ToMatches(t, name))
  }

  /** Some grant in the backend's namespace lets this route refer to it. */
  ghost predicate Granted(c: State, kind: RouteKind, ns: string, backend: Name) {
    exists k :: k in c.grants && Listed(backend.namespace, k) && Permits(c.grants[k], kind, ns, backend.name)
  }

  ghost predicate Usable(c: State, kind: RouteKind, ns: string, ref: Ref) {
    ServiceRef(ref) && (RefName(ns, ref).namespace == ns || Granted(c, kind, ns, RefName(ns, ref)))
  }

  /** The kind as a grant spells it. */
  predicate Spells(kind: RouteKind, text: string) {
    || (kind == HTTPRoute && text == "HTTPRoute")
    || (kind == TCPRoute && text == "TCPRoute")
    || (kind == UDPRoute && text == "UDPRoute")
  }

  /** From the fields: the grant lets routes of this kind and namespace refer to the Service of this name. */
  ghost predicate Opens(g: Grant, kind: RouteKind, ns: string, name: string) {
    && (exists f :: f in g.from && f.group == "gateway.networking.k8s.io" && Spells(kind, f.kind) && f.namespace == ns)
    && (exists t :: t in g.to && t.group == "" && t.kind == "Service" && (t.name == None || t.name == Some(name)))
  }

  /** From the fields: a reference to a Service, in the namespace of the route or opened by some grant stored in
      the namespace of the Service. The empty namespace lists the grants of all. */
  ghost predicate Allowed(c: State, kind: RouteKind, ns: string, ref: Ref) {
    var target := if ref.namespace.Some? then ref.namespace.value else ns;
    && (ref.group == None || ref.group == Some("")) && (ref.kind == None || ref.kind == Some("Service"))
    && (target == ns ||
        exists k :: k in c.grants && (k.namespace == target || target == "") && Opens(c.grants[k], kind, ns, ref.name))
  }

  lemma PermitsExact(g: Grant, kind: RouteKind, ns: string, name: string)
    ensures Permits(g, kind, ns, name) <==> Opens(g, kind, ns, name)
  {
    if Permits(g, kind, ns, name) {
      var f :| f in g.from && FromMatches(f, kind, ns);
      var t :| t in g.to && ToMatches(t, name);
      assert Spells(kind, f.kind) && (t.name == None || t.name == Some(name));
    }
    if Opens(g, kind, ns, name) {
      var f :| f in g.from && f.group == "gateway.networking.k8s.io" && Spells(kind, f.kind) && f.namespace == ns;
      var t :| t in g.to && t.group == "" && t.kind == "Service" && (t.name == None || t.name == Some(name));
      assert FromMatches(f, kind, ns) && ToMatches(t, name);
    }
  }

  lemma UsableExact(c: State, kind: RouteKind, ns: string, ref: Ref)
    ensures Usable(c, kind, ns, ref) <==> Allowed(c, kind, ns, ref)
  {
    hide Permits, Opens;
    assert ServiceRef(ref) <==>
      (ref.group == None || ref.group == Some("")) && (ref.kind == None || ref.kind == Some("Service"));
    forall k | k in c.grants
      ensures Permits(c.grants[k], kind, ns, ref.name) <==> Opens(c.grants[k], kind, ns, ref.name)
    {
      PermitsExact(c.grants[k], kind, ns, ref.name);
    }
  }

  method Permission(g: Grant, kind: RouteKind, ns: string, name: string) returns (ok: bool)
    ensures ok <==> Permits(g, kind, ns, name)
    ensures ok <==> Opens(g, kind, ns, name)
  {
    PermitsExact(g, kind, ns, name);
    hide Opens;
    var fromOK := false;
    for i := 0 to |g.from|
      invariant !fromOK && forall j :: 0 <= j < i ==> !FromMatches(g.from[j], kind, ns)
    {
      if FromMatches(g.from[i], kind, ns) {
        fromOK := true;
        break;
      }
    }
    if !fromOK {
      return false;
    }
    for i := 0 to |g.to|
      invariant forall j :: 0 <= j < i ==> !ToMatches(g.to[j], name)
    {
      if ToMatches(g.to[i], name) {
        return true;
      }
    }
    ok := false;
  }

  /** `routeBackend` */
  method RouteBackend(c: State, kind: RouteKind, ns: string, ref: Ref) returns (r: Option<Name>)
    ensures r == if Usable(c, kind, ns, ref) then Some(RefName(ns, ref)) else None
    ensures r.Some? <==> Allowed(c, kind, ns, ref)
    ensures r.Some? ==> r.value == Name(if ref.namespace.Some? then ref.namespace.value else ns, ref.name)
  {
    UsableExact(c, kind, ns, ref);
    hide Allowed, Opens;
    if !ServiceRef(ref) {
      return None;
    }
    var backend := RefName(ns, ref);
    if backend.namespace == ns {
      return Some(backend);
    }
    var todo := set k | k in c.grants && Listed(backend.namespace, k);
    while todo != {}
      invariant todo <= set k | k in c.grants && Listed(backend.namespace, k)
      invariant
        forall k :: k in c.grants && Listed(backend.namespace, k) && k !in todo ==>
          !Permits(c.grants[k], kind, ns, backend.name)
      decreases todo
    {
      var k :| k in todo;
      todo := todo - {k};
      var ok := Permission(c.grants[k], kind, ns, backend.name);
      if ok {
        return Some(backend);
      }
    }
    r := None;
  }

  ghost function RouteBackends(c: State, ns: string, route: Route): set<Name> {
    set ref | ref in Flatten(route.rules) && Usable(c, route.kind, ns, ref) :: RefName(ns, ref)
  }

  /** The hostnames a route publishes: the overrides, or those of an HTTPRoute. */
  ghost predicate UsesOwnHostnames(route: Route, overrides: seq<string>) { overrides == [] && route.kind == HTTPRoute }

  ghost function RouteHostnames(route: Route, overrides: seq<string>): set<string> {
    if UsesOwnHostnames(route, overrides) then RawHosts(route.hostnames) else Elems(overrides)
  }

  ghost function RouteHosts(c: State, ns: string, route: Route,
                            overrides: seq<string>): Option<map<string, set<Name>>> {
    if UsesOwnHostnames(route, overrides) && exists h :: h in route.hostnames && NormalizeHostname(h).None? then None
    else if RouteBackends(c, ns, route) == {} then Some(map[])
    else Some(map h | h in RouteHostnames(route, overrides) :: RouteBackends(c, ns, route))
  }

  method CollectRefs(c: State, ns: string, route: Route) returns (all: set<Name>)
    ensures all == RouteBackends(c, ns, route)
  {
    var refs := RouteBackendRefs(route);
    all := {};
    hide Flatten;
    for i := 0 to |refs|
      invariant all == set ref | ref in refs[..i] && Usable(c, route.kind, ns, ref) :: RefName(ns, ref)
    {
      assert refs[..i + 1] == refs[..i] + [refs[i]];
      var backend := RouteBackend(c, route.kind, ns, refs[i]);
      hide Usable, RefName;
      if backend.Some? {
        all := all + {backend.value};
      }
    }
    assert refs[..|refs|] == refs;
  }

  method OwnHostnames(raw: seq<string>) returns (r: Option<seq<string>>)
    ensures r.None? <==> exists h :: h in raw && NormalizeHostname(h).None?
    ensures r.Some? ==> r.value == SortedStrings(RawHosts(raw))
  {
    hide NormalizeHostname;
    var list: seq<string> := [];
    assert RawHosts(raw[..0]) == {};
    for i := 0 to |raw|
      invariant forall j :: 0 <= j < i ==> NormalizeHostname(raw[j]).Some?
      invariant Elems(list) == RawHosts(raw[..i])
    {
      assert raw[..i + 1] == raw[..i] + [raw[i]];
      var host := NormalizeHostname(raw[i]);
      if host.None? {
        return None;
      }
      RawHostsStep(raw[..i], raw[i]);
      ghost var before := list;
      list := list + [host.value];
      assert Elems(list) == Elems(before) + {host.value};
    }
    assert raw[..|raw|] == raw;
    var sorted := SortedUniqueStrings(list);
    r := Some(sorted);
  }

  method RouteProjection(c: State, ns: string, route: Route, overrides: seq<string>)
    returns (r: Option<seq<HostProjection>>)
    ensures r.None? <==> RouteHosts(c, ns, route, overrides).None?
    ensures r.Some? ==> Projects(r.value, RouteHosts(c, ns, route, overrides).value)
    ensures r.Some? && StrictlySorted(StringLess, overrides) ==> StrictlySorted(StringLess, Hostnames(r.value))
  {
    hide NormalizeHostname, RouteBackends, RawHosts;
    var all := CollectRefs(c, ns, route);
    var hostnames := overrides;
    if |hostnames| == 0 && route.kind == HTTPRoute {
      var own := OwnHostnames(route.hostnames);
      if own.None? {
        return None;
      }
      hostnames := own.value;
      SortedStringsLists(RawHosts(route.hostnames));
    }
    assert Elems(hostnames) == RouteHostnames(route, overrides);
    if all == {} {
      return Some([]);
    }
    hide Projects, StrictlySorted;
    var list := Spread(hostnames, all);
    assert (map h | h in hostnames :: all) == map h | h in RouteHostnames(route, overrides) :: all by {
      hide RouteHostnames;
      forall h ensures h in hostnames <==> h in RouteHostnames(route, overrides) {
        assert h in Elems(hostnames) <==> h in hostnames;
      }
    }
    r := Some(list);
  }

  lemma {:induction false} FlattenHas(rules: seq<seq<Ref>>, ref: Ref)
    ensures ref in Flatten(rules) <==> exists refs :: refs in rules && ref in refs
  {
    if rules != [] {
      var n := |rules| - 1;
      FlattenHas(rules[..n], ref);
      assert rules == rules[..n] + [rules[n]];
      if ref in Flatten(rules[..n]) {
        var refs :| refs in rules[..n] && ref in refs;
        assert refs in rules;
      }
      assert ref in rules[n] ==> rules[n] in rules;
    }
  }

  /** From the fields: some reference of the route is allowed and names this backend. */
  ghost predicate RefersTo(c: State, ns: string, route: Route, b: Name) {
    exists refs, ref ::
      && refs in route.rules && ref in refs && Allowed(c, route.kind, ns, ref)
      && b == Name(if ref.namespace.Some? then ref.namespace.value else ns, ref.name)
  }

  lemma BackendsExact(c: State, ns: string, route: Route, b: Name)
    ensures b in RouteBackends(c, ns, route) <==> RefersTo(c, ns, route, b)
  {
    hide Flatten, Usable, Allowed;
    if b in RouteBackends(c, ns, route) {
      var ref :| ref in Flatten(route.rules) && Usable(c, route.kind, ns, ref) && RefName(ns, ref) == b;
      FlattenHas(route.rules, ref);
      UsableExact(c, route.kind, ns, ref);
    }
    if RefersTo(c, ns, route, b) {
      var refs, ref :|
        && refs in route.rules && ref in refs && Allowed(c, route.kind, ns, ref)
        && b == Name(if ref.namespace.Some? then ref.namespace.value else ns, ref.name);
      FlattenHas(route.rules, ref);
      UsableExact(c, route.kind, ns, ref);
    }
  }

  /** What a route publishes, from the fields: each hostname (an override, or without overrides an own hostname
      of an HTTPRoute) with each backend it may refer to. */
  lemma RouteHostsExact(c: State, ns: string, route: Route, overrides: seq<string>, h: string, b: Name)
    ensures
      RouteHosts(c, ns, route, overrides).None? <==>
        overrides == [] && route.kind == HTTPRoute && exists raw ::
          raw in route.hostnames && NormalizeHostname(raw).None?
    ensures
      var m := RouteHosts(c, ns, route, overrides);
      m.Some? ==>
        ((h in m.value && b in m.value[h]) <==>
         && RefersTo(c, ns, route, b)
         && (if overrides != [] then h in overrides
             else route.kind == HTTPRoute && exists raw :: raw in route.hostnames && NormalizeHostname(raw) == Some(h)))
  {
    hide NormalizeHostname, RefersTo, RouteBackends;
    BackendsExact(c, ns, route, b);
    assert h in RawHosts(route.hostnames) <==>
      exists raw :: raw in route.hostnames && NormalizeHostname(raw) == Some(h);
  }

  /** From the fields: a rule for the hostname, with an HTTP part that names the service. */
  ghost predicate RuleNames(ing: Ingress, host: string, service: string) {
    exists r ::
      && r in ing.rules && r.host != "" && r.paths.Some?
      && NormalizeHostname(r.host) == Some(host) && Some(service) in r.paths.value
  }

  ghost predicate HasRule(ing: Ingress, host: string) {
    exists r :: r in ing.rules && r.host != "" && r.paths.Some? && NormalizeHostname(r.host) == Some(host)
  }

  ghost predicate TlsNames(ing: Ingress, host: string) {
    exists hosts, raw :: hosts in ing.tls && raw in hosts && NormalizeHostname(raw) == Some(host)
  }

  ghost predicate AnyRuleNames(ing: Ingress, service: string) {
    exists r :: r in ing.rules && r.host != "" && r.paths.Some? && Some(service) in r.paths.value
  }

  lemma UsedExact(ns: string, r: Rule, b: Name)
    ensures
      b in UsedBackends(ns, r) <==>
        r.host != "" && r.paths.Some? && b.namespace == ns && b.name != "" && Some(b.name) in r.paths.value
  {
    if UsedRule(r) && b.namespace == ns && b.name != "" && Some(b.name) in r.paths.value {
      assert ServiceBackend(ns, Some(b.name)) == Some(b);
    }
  }

  lemma RulesExact(ns: string, ing: Ingress, h: string, b: Name)
    ensures h in RuleHosts(ing.rules) <==> HasRule(ing, h)
    ensures
      b in RuleBackends(ns, ing.rules, h) <==> b.namespace == ns && b.name != "" && RuleNames(ing, h, b.name)
    ensures h in TlsHosts(ing.tls) <==> TlsNames(ing, h)
  {
    hide NormalizeHostname, UsedBackends;
    forall r | r in ing.rules
      ensures
        b in UsedBackends(ns, r) <==>
          r.host != "" && r.paths.Some? && b.namespace == ns && b.name != "" && Some(b.name) in r.paths.value
    {
      UsedExact(ns, r, b);
    }
    if b.namespace == ns && b.name != "" && RuleNames(ing, h, b.name) {
      var r :|
        && r in ing.rules && r.host != "" && r.paths.Some?
        && NormalizeHostname(r.host) == Some(h) && Some(b.name) in r.paths.value;
      assert RuleFor(r, h) && b in UsedBackends(ns, r);
    }
    if HasRule(ing, h) {
      var r :| r in ing.rules && r.host != "" && r.paths.Some? && NormalizeHostname(r.host) == Some(h);
      assert UsedRule(r);
    }
  }

  /** What an Ingress publishes, from the fields. With overrides: every override with the default service and
      every service of a used rule. Without: a hostname of rules with their services, and a hostname of the
      TLS section that no rule has with the default service. */
  lemma IngressHostsExact(ns: string, ing: Ingress, overrides: seq<string>, h: string, b: Name)
    ensures
      var m := IngressHosts(ns, ing, overrides);
      m.Some? ==>
        ((h in m.value && b in m.value[h]) <==>
         && b.namespace == ns && b.name != ""
         && (if overrides != [] then
               h in overrides && (ing.defaultService == Some(b.name) || AnyRuleNames(ing, b.name))
             else
               RuleNames(ing, h, b.name)
               || (ing.defaultService == Some(b.name) && TlsNames(ing, h) && !HasRule(ing, h))))
  {
    var m := IngressHosts(ns, ing, overrides);
    RulesExact(ns, ing, h, b);
    AllExact(ns, ing, b);
    assert b in Optional(ServiceBackend(ns, ing.defaultService)) <==>
      b.namespace == ns && b.name != "" && ing.defaultService == Some(b.name);
    hide RuleHosts, RuleBackends, TlsHosts, AllBackends, GoodRules, GoodTls, RuleNames, HasRule, TlsNames, AnyRuleNames;
    if m.Some? && overrides == [] {
      assert RuleNames(ing, h, b.name) ==> HasRule(ing, h) by { NamedHasRule(ing, h, b.name); }
    }
  }

  lemma NamedHasRule(ing: Ingress, h: string, service: string)
    ensures RuleNames(ing, h, service) ==> HasRule(ing, h)
  {
  }

  lemma AllExact(ns: string, ing: Ingress, b: Name)
    ensures
      b in AllBackends(ns, ing) <==>
        && b.namespace == ns && b.name != ""
        && (ing.defaultService == Some(b.name) || AnyRuleNames(ing, b.name))
  {
    hide UsedBackends;
    forall r | r in ing.rules
      ensures
        b in UsedBackends(ns, r) <==>
          r.host != "" && r.paths.Some? && b.namespace == ns && b.name != "" && Some(b.name) in r.paths.value
    {
      UsedExact(ns, r, b);
    }
  }
}
