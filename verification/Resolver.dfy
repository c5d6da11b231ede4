/** What a provider publishes for a map of hostnames to backends: a set comprehension over the ready
    endpoints, and the nested loops that compute it. */
module Resolver {
  import opened Lifecycle
  import opened Ordering
  import opened Text
  import opened Endpoints
  import opened Objects
  import opened Names
  import opened Cluster
  import opened NetAddr
  import opened Projection

  function Swap(s: string, a: char, b: char): (r: string)
    ensures |r| == |s| && forall i :: 0 <= i < |r| ==> r[i] == if s[i] == a then b else s[i]
  {
    seq(|s|, i requires 0 <= i < |s| => if s[i] == a then b else s[i])
  }

  const V6_PREFIX := "v6-"

  /** An address the IPv6 label form is for. */
  predicate Plain(a: Address) { Proper(a) && a.V6? && !Is4In6(a) }

  /** The label value of an IPv6 address. */
  function EncodeV6(a: Address): string
    requires Plain(a)
  {
    V6_PREFIX + Swap(Print(a), ':', '-')
  }

  function DecodeV6(value: string): Option<Address> {
    if !HasPrefix(value, V6_PREFIX) then None
    else
      var text := Swap(value[|V6_PREFIX|..], '-', ':');
      var a := ParseAddr(text);
      if a.None? || !a.value.V6? || Is4In6(a.value) then None
      else
        ParsedProper(text);
        if value != EncodeV6(a.value) then None else a
  }

  /** `parseNodeAddress` */
  function ParseNodeAddress(value: string, f: Family): Option<Address> {
    match f
    case IPv4 =>
      if HasPrefix(value, V6_PREFIX) then None
      else
        var a := ParseAddr(value);
        if a.Some? && a.value.V4? then a else None
    case IPv6 => DecodeV6(value)
  }

  lemma SwapBack(s: string)
    ensures Swap(Swap(s, ':', '-'), '-', ':') == s <==> '-' !in s
  {
    var t := Swap(Swap(s, ':', '-'), '-', ':');
    if '-' in s {
      var i :| 0 <= i < |s| && s[i] == '-';
      assert t[i] == ':';
    }
  }

  /** Only a zone brings a dash into printed text. */
  lemma DashOnlyInZone(a: Address)
    requires Plain(a)
    ensures '-' in Print(a) <==> '-' in a.zone
  {
    GroupsText(a.groups);
    hide PrintGroups;
    var base := PrintGroups(a.groups);
    if '-' in a.zone {
      var i :| 0 <= i < |a.zone| && a.zone[i] == '-';
      assert Print(a)[|base| + 1 + i] == '-';
    }
  }

  /** What decodes is in the dash form of what it decodes to, and of nothing else. */
  lemma DecodeIsEncoding(value: string)
    requires DecodeV6(value).Some?
    ensures Plain(DecodeV6(value).value) && value == EncodeV6(DecodeV6(value).value)
  {
    ParsedProper(Swap(value[|V6_PREFIX|..], '-', ':'));
    hide ParseAddr, Print, Proper;
  }

  /** THE IPv6 LABEL CODEC, over all unmapped addresses. Encoding then parsing gives the address back exactly
      when its zone holds no dash; such an address is accepted under exactly one label, its encoding, and
      one with a dash in its zone under none. */
  lemma LabelCodec(a: Address, value: string)
    requires Plain(a)
    ensures ParseNodeAddress(EncodeV6(a), IPv6) == Some(a) <==> '-' !in a.zone
    ensures ParseNodeAddress(value, IPv6) == Some(a) <==> '-' !in a.zone && value == EncodeV6(a)
  {
    V6Reads(a);
    DashOnlyInZone(a);
    SwapBack(Print(a));
    DecodesTo(a, EncodeV6(a));
    if DecodeV6(value) == Some(a) { DecodeIsEncoding(value); }
    hide ParseAddr, Print, Proper;
  }

  lemma DecodesTo(a: Address, value: string)
    requires Plain(a) && value == EncodeV6(a) && ParseAddr(Print(a)) == Some(a)
    ensures DecodeV6(value) == Some(a) <==> Swap(Swap(Print(a), ':', '-'), '-', ':') == Print(a)
  {
    var text := Swap(Print(a), ':', '-');
    assert value[|V6_PREFIX|..] == text;
    var back := Swap(text, '-', ':');
    if DecodeV6(value) == Some(a) {
      DecodedText(back, a);
    }
    hide ParseAddr, Print, Proper;
  }

  /** An IPv6 text that reads to an address, up to letter case and spelling, holds the same dashes: none. */
  lemma DecodedText(text: string, a: Address)
    requires Plain(a) && ParseAddr(text) == Some(a) && '-' !in text
    ensures '-' !in a.zone && '-' !in Print(a)
  {
    DashOnlyInZone(a);
    hide Print;
    PercentFits(text);
    var i := FirstPercent(text);
    assert a.zone == "" || a.zone == text[i + 1..];
    forall j | 0 <= j < |a.zone| ensures a.zone[j] != '-' { assert a.zone[j] in text; }
  }

  /** IPv4 labels: exactly the text the address prints. */
  lemma LabelCodecV4(a: Address, value: string)
    requires a.V4? && Proper(a)
    ensures ParseNodeAddress(value, IPv4) == Some(a) <==> value == Print(a)
  {
    V4Codec(a, value);
    hide ParseAddr, Print;
    assert value == Print(a) ==> value[0] != 'v';
  }

  function LabelFor(p: Provider, f: Family): string {
    match f
    case IPv4 => OrEmpty(p.ipv4)
    case IPv6 => OrEmpty(p.ipv6)
  }

  lemma ReadableAddress(value: string, f: Family)
    requires ParseNodeAddress(value, f).Some?
    ensures
      var a := ParseNodeAddress(value, f).value;
      Proper(a) && !Is4In6(a)
  {
    match f
    case IPv4 => ParsedProper(value);
    case IPv6 => DecodeIsEncoding(value);
  }

  /** What a node says about a family: nothing, something malformed, or an address. */
  datatype Reading = Absent | Malformed | Found(address: string)

  function Read(p: Provider, f: Family, labels: map<string, string>): Reading {
    var key := LabelFor(p, f);
    var value := Lookup(labels, key);
    if key == "" || value == "" then Absent
    else
      var a := ParseNodeAddress(value, f);
      if a.None? then Malformed
      else
        ReadableAddress(value, f);
        Found(Print(a.value))
  }

  /** A published address is not empty. */
  lemma ReadFilled(p: Provider, f: Family, labels: map<string, string>)
    ensures Read(p, f, labels).Found? ==> Read(p, f, labels).address != ""
  {
    var value := Lookup(labels, LabelFor(p, f));
    if Read(p, f, labels).Found? {
      ReadableAddress(value, f);
      PrintFilled(ParseNodeAddress(value, f).value);
    }
  }

  predicate Ready(e: SliceEndpoint) {
    (e.ready.None? || e.ready.value) && e.node.Some? && e.node.value != ""
  }

  predicate SliceOf(k: Name, s: Slice, b: Name) { Listed(b.namespace, k) && s.service == Some(b.name) }

  function NodesOf(endpoints: seq<SliceEndpoint>): set<string> {
    set e | e in endpoints && Ready(e) :: e.node.value
  }

  /** The nodes of the ready endpoints of a backend. */
  function ReadyNodes(c: State, b: Name): set<string> {
    set k, n | k in c.slices && SliceOf(k, c.slices[k], b) && n in NodesOf(c.slices[k].endpoints) :: n
  }

  /** The fixed part of resolving one provider. */
  datatype Query = Query(provider: Provider, families: seq<Family>)

  predicate NodeReadable(q: Query, c: State, n: string) {
    n in c.nodes && forall f :: f in q.families ==> !Read(q.provider, f, c.nodes[n]).Malformed?
  }

  predicate Resolves(q: Query, c: State, b: Name) {
    b in c.services && forall n :: n in ReadyNodes(c, b) ==> NodeReadable(q, c, n)
  }

  function FoundIn(r: Reading): set<string> { if r.Found? then {r.address} else {} }

  function Supplied(q: Query, c: State, f: Family, n: string): set<string> {
    if n !in c.nodes then {} else FoundIn(Read(q.provider, f, c.nodes[n]))
  }

  function NodeAddresses(q: Query, c: State, f: Family, nodes: set<string>): set<string> {
    set n, a | n in nodes && a in Supplied(q, c, f, n) :: a
  }

  function BackendAddresses(q: Query, c: State, f: Family, b: Name): set<string> {
    NodeAddresses(q, c, f, ReadyNodes(c, b))
  }

  /** The addresses on the nodes of the ready endpoints of some backends. */
  function HostAddresses(q: Query, c: State, f: Family, backends: set<Name>): set<string> {
    set b, a | b in backends && a in BackendAddresses(q, c, f, b) :: a
  }

  function TypeOf(f: Family): string {
    match f
    case IPv4 => "A"
    case IPv6 => "AAAA"
  }

  function FamilyFor(recordType: string): Family { if recordType == "A" then IPv4 else IPv6 }

  datatype Settings = Settings(ttl: int, properties: seq<Property>)

  ghost function TargetsOf(q: Query, c: State, hosts: map<string, set<Name>>, id: RecordId): set<string> {
    if id.dnsName in hosts then HostAddresses(q, c, FamilyFor(id.recordType), hosts[id.dnsName]) else {}
  }

  /** The records published: one for each hostname in a zone and each family with an address. */
  ghost function RecordIds(q: Query, c: State, hosts: map<string, set<Name>>): set<RecordId> {
    set h, f | h in hosts && InZones(h, q.provider.zones) && f in q.families && HostAddresses(q, c, f, hosts[h]) != {}
      :: RecordId(h, TypeOf(f))
  }

  ghost function RecordAt(q: Query, c: State, hosts: map<string, set<Name>>, s: Settings, id: RecordId): Record {
    Record(id.dnsName, id.recordType, SortedStrings(TargetsOf(q, c, hosts, id)), s.ttl, s.properties)
  }

  ghost function RecordList(q: Query, c: State, hosts: map<string, set<Name>>, s: Settings): seq<Record> {
    Orders();
    var ids := SortSet(IdLess, RecordIds(q, c, hosts));
    seq(|ids|, i requires 0 <= i < |ids| => RecordAt(q, c, hosts, s, ids[i]))
  }

  ghost predicate AllResolve(q: Query, c: State, hosts: map<string, set<Name>>) {
    forall h, b :: h in hosts && InZones(h, q.provider.zones) && b in hosts[h] ==> Resolves(q, c, b)
  }

  /** From the fields: a slice of the service has an endpoint on the node that is not marked unready. */
  ghost predicate HasReadyEndpoint(c: State, b: Name, n: string) {
    exists k, e ::
      && k in c.slices && (k.namespace == b.namespace || b.namespace == "") && c.slices[k].service == Some(b.name)
      && e in c.slices[k].endpoints && e.ready != Some(false) && e.node == Some(n) && n != ""
  }

  function LabelOf(p: Provider, f: Family): Option<string> { if f == IPv4 then p.ipv4 else p.ipv6 }

  /** From the fields: the label the provider names for the family has a value that is not empty. */
  predicate Labelled(p: Provider, f: Family, labels: map<string, string>) {
    && (LabelOf(p, f).Some? && LabelOf(p, f).value != "")
    && LabelOf(p, f).value in labels && labels[LabelOf(p, f).value] != ""
  }

  /** From the fields: that value is not an address of the family. */
  predicate Unparsable(p: Provider, f: Family, labels: map<string, string>) {
    Labelled(p, f, labels) && ParseNodeAddress(labels[LabelOf(p, f).value], f).None?
  }

  /** From the fields: that value parses to an address, printed as `a`. */
  predicate NodeSays(p: Provider, f: Family, labels: map<string, string>, a: string) {
    && Labelled(p, f, labels)
    && var r := ParseNodeAddress(labels[LabelOf(p, f).value], f);
       r.Some? && Proper(r.value) && !Is4In6(r.value) && Print(r.value) == a
  }

  /** From the fields: the address is on a node with a ready endpoint of the backend. */
  ghost predicate OnReadyNode(c: State, p: Provider, f: Family, b: Name, a: string) {
    exists n :: n in c.nodes && HasReadyEndpoint(c, b, n) && NodeSays(p, f, c.nodes[n], a)
  }

  lemma ReadyNodesExact(c: State, b: Name, n: string)
    ensures n in ReadyNodes(c, b) <==> HasReadyEndpoint(c, b, n)
  {
    if n in ReadyNodes(c, b) {
      var k :| k in c.slices && SliceOf(k, c.slices[k], b) && n in NodesOf(c.slices[k].endpoints);
      var e :| e in c.slices[k].endpoints && Ready(e) && e.node.value == n;
      assert e.node == Some(n) && e.ready != Some(false);
    }
    if HasReadyEndpoint(c, b, n) {
      var k, e :|
        && k in c.slices && (k.namespace == b.namespace || b.namespace == "") && c.slices[k].service == Some(b.name)
        && e in c.slices[k].endpoints && e.ready != Some(false) && e.node == Some(n) && n != "";
      assert Ready(e) && SliceOf(k, c.slices[k], b);
      assert n in NodesOf(c.slices[k].endpoints);
    }
  }

  lemma ReadExact(p: Provider, f: Family, labels: map<string, string>, a: string)
    ensures Read(p, f, labels) == Found(a) <==> NodeSays(p, f, labels, a)
    ensures Read(p, f, labels).Malformed? <==> Unparsable(p, f, labels)
  {
    hide ParseNodeAddress, Print, Proper;
    if Labelled(p, f, labels) {
      var value := labels[LabelOf(p, f).value];
      assert Lookup(labels, LabelFor(p, f)) == value;
      if ParseNodeAddress(value, f).Some? { ReadableAddress(value, f); }
    }
  }

  /** What a backend brings, from the fields. */
  lemma BackendExact(q: Query, c: State, f: Family, b: Name, a: string)
    ensures a in BackendAddresses(q, c, f, b) <==> OnReadyNode(c, q.provider, f, b, a)
  {
    hide ReadyNodes, HasReadyEndpoint, NodeSays, Read;
    forall n | n in c.nodes
      ensures n in ReadyNodes(c, b) && a in Supplied(q, c, f, n) <==>
        HasReadyEndpoint(c, b, n) && NodeSays(q.provider, f, c.nodes[n], a)
    {
      ReadyNodesExact(c, b, n);
      ReadExact(q.provider, f, c.nodes[n], a);
    }
  }

  /** From the fields: the backend can be resolved. */
  ghost predicate Resolvable(q: Query, c: State, b: Name) {
    && b in c.services
    && forall n :: HasReadyEndpoint(c, b, n) ==>
         n in c.nodes && forall f :: f in q.families ==> !Unparsable(q.provider, f, c.nodes[n])
  }

  lemma ResolvesExact(q: Query, c: State, b: Name)
    ensures Resolves(q, c, b) <==> Resolvable(q, c, b)
  {
    hide ReadyNodes, HasReadyEndpoint, Read, Unparsable;
    forall n ensures n in ReadyNodes(c, b) <==> HasReadyEndpoint(c, b, n) { ReadyNodesExact(c, b, n); }
    forall n, f | n in c.nodes
      ensures Read(q.provider, f, c.nodes[n]).Malformed? <==> Unparsable(q.provider, f, c.nodes[n])
    {
      ReadExact(q.provider, f, c.nodes[n], "");
    }
  }

  method ReadyNodeNames(c: State, b: Name) returns (nodes: set<string>)
    ensures nodes == ReadyNodes(c, b)
    ensures forall n :: n in nodes <==> HasReadyEndpoint(c, b, n)
  {
    nodes := {};
    ghost var done: set<Name> := {};
    var todo := set k | k in c.slices && SliceOf(k, c.slices[k], b);
    while todo != {}
      invariant todo !! done && todo + done == set k | k in c.slices && SliceOf(k, c.slices[k], b)
      invariant nodes == set k, n | k in done && k in c.slices && n in NodesOf(c.slices[k].endpoints) :: n
      decreases todo
    {
      var k :| k in todo;
      todo, done := todo - {k}, done + {k};
      var found := SliceNodes(c.slices[k].endpoints);
      nodes := nodes + found;
    }
    assert nodes == ReadyNodes(c, b);
    hide ReadyNodes, HasReadyEndpoint;
    forall n ensures n in nodes <==> HasReadyEndpoint(c, b, n) { ReadyNodesExact(c, b, n); }
  }

  method SliceNodes(endpoints: seq<SliceEndpoint>) returns (nodes: set<string>)
    ensures nodes == NodesOf(endpoints)
  {
    nodes := {};
    for i := 0 to |endpoints|
      invariant nodes == NodesOf(endpoints[..i])
    {
      var e := endpoints[i];
      assert endpoints[..i + 1] == endpoints[..i] + [e];
      if e.ready.Some? && !e.ready.value {
        continue;
      }
      if e.node.None? || e.node.value == "" {
        continue;
      }
      nodes := nodes + {e.node.value};
    }
    assert endpoints[..|endpoints|] == endpoints;
  }

  type Addresses = map<Family, seq<string>>

  function At(m: Addresses, f: Family): seq<string> { if f in m then m[f] else [] }

  /** The addresses one node adds, family by family. */
  method NodeTargets(q: Query, labels: map<string, string>, before: Addresses) returns (r: Option<Addresses>)
    ensures r.None? <==> exists f :: f in q.families && Read(q.provider, f, labels).Malformed?
    ensures r.Some? ==> forall f ::
              Elems(At(r.value, f)) == Elems(At(before, f)) +
              (if f in q.families then FoundIn(Read(q.provider, f, labels)) else {})
    ensures r.Some? ==> forall f :: f in r.value && f !in before ==> r.value[f] != []
  {
    hide Read;
    var now := before;
    for i := 0 to |q.families|
      invariant forall j :: 0 <= j < i ==> !Read(q.provider, q.families[j], labels).Malformed?
      invariant forall f :: Elems(At(now, f)) == Elems(At(before, f)) +
                  (if f in q.families[..i] then FoundIn(Read(q.provider, f, labels)) else {})
      invariant forall f :: f in now && f !in before ==> now[f] != []
    {
      var family := q.families[i];
      assert q.families[..i + 1] == q.families[..i] + [family];
      var reading := Read(q.provider, family, labels);
      if reading.Malformed? {
        return None;
      }
      if reading.Found? {
        ghost var was := At(now, family);
        assert Elems(was + [reading.address]) == Elems(was) + {reading.address};
        now := now[family := At(now, family) + [reading.address]];
      }
    }
    assert q.families[..|q.families|] == q.families;
    r := Some(now);
  }

  lemma NodeAddressesStep(q: Query, c: State, f: Family, nodes: set<string>, n: string)
    ensures NodeAddresses(q, c, f, nodes + {n}) == NodeAddresses(q, c, f, nodes) + Supplied(q, c, f, n)
  {
    hide Supplied;
  }

  /** The addresses found on a list of nodes. */
  ghost predicate Gathers(q: Query, c: State, nodes: set<string>, r: Addresses) {
    && (forall f :: Elems(At(r, f)) == if f in q.families then NodeAddresses(q, c, f, nodes) else {})
    && (forall f :: f in r ==> r[f] != [])
  }

  lemma GathersStep(q: Query, c: State, nodes: set<string>, n: string, before: Addresses, after: Addresses)
    requires Gathers(q, c, nodes, before) && n in c.nodes
    requires forall f ::
               Elems(At(after, f)) == Elems(At(before, f)) +
               (if f in q.families then FoundIn(Read(q.provider, f, c.nodes[n])) else {})
    requires forall f :: f in after && f !in before ==> after[f] != []
    ensures Gathers(q, c, nodes + {n}, after)
  {
    hide Read;
    forall f ensures Elems(At(after, f)) == if f in q.families then NodeAddresses(q, c, f, nodes + {n}) else {} {
      NodeAddressesStep(q, c, f, nodes, n);
      hide NodeAddresses;
    }
    forall f | f in before && f in after ensures after[f] != [] {
      assert before[f][0] in Elems(At(before, f));
      assert before[f][0] in Elems(At(after, f));
    }
  }

  /** `backendTargets`: an error, or each family's addresses sorted and without repetition. */
  method BackendTargets(q: Query, c: State, b: Name) returns (r: Option<Addresses>)
    ensures r.None? <==> !Resolves(q, c, b)
    ensures r.Some? ==> forall f :: f in q.families ==>
              && At(r.value, f) == SortedStrings(BackendAddresses(q, c, f, b))
              && (f in r.value <==> BackendAddresses(q, c, f, b) != {})
    ensures r.Some? ==> forall f :: f in r.value ==> f in q.families
    ensures r.Some? <==> Resolvable(q, c, b)
    ensures
      r.Some? ==> forall f, a :: f in q.families ==> (a in At(r.value, f) <==> OnReadyNode(c, q.provider, f, b, a))
  {
    hide Resolvable, OnReadyNode, HasReadyEndpoint, Read, ReadyNodes, NodeAddresses;
    hide StrictlySorted, StringLess, SortedStrings;
    ResolvesExact(q, c, b);
    if b !in c.services {
      return None;
    }
    var nodes := ReadyNodeNames(c, b);
    var names := StringSet(nodes);
    SortedStringsLists(nodes);
    var result: Addresses := map[];
    EmptyGathers(q, c);
    assert Elems(names[..0]) == {};
    for i := 0 to |names|
      invariant Gathers(q, c, Elems(names[..i]), result)
      invariant forall j :: 0 <= j < i ==> NodeReadable(q, c, names[j])
    {
      var n := names[i];
      assert n in nodes;
      if n !in c.nodes {
        return None;
      }
      var next := NodeTargets(q, c.nodes[n], result);
      if next.None? {
        return None;
      }
      GathersStep(q, c, Elems(names[..i]), n, result, next.value);
      hide Gathers;
      assert Elems(names[..i + 1]) == Elems(names[..i]) + {n} by { assert names[..i + 1] == names[..i] + [n]; }
      result := next.value;
    }
    assert names[..|names|] == names;
    var sorted := SortEach(result);
    GathersResult(q, c, nodes, result);
    hide Gathers, At, NodeReadable, SortedStrings;
    ListedExact(q, c, b, sorted);
    r := Some(sorted);
  }

  lemma ListedExact(q: Query, c: State, b: Name, sorted: Addresses)
    requires forall f :: f in q.families ==> At(sorted, f) == SortedStrings(BackendAddresses(q, c, f, b))
    ensures forall f, a :: f in q.families ==> (a in At(sorted, f) <==> OnReadyNode(c, q.provider, f, b, a))
  {
    hide At, SortedStrings, BackendAddresses, OnReadyNode;
    forall f, a | f in q.families ensures a in At(sorted, f) <==> OnReadyNode(c, q.provider, f, b, a) {
      BackendExact(q, c, f, b, a);
      SortedStringsLists(BackendAddresses(q, c, f, b));
    }
  }

  lemma GathersResult(q: Query, c: State, nodes: set<string>, result: Addresses)
    requires Gathers(q, c, nodes, result)
    ensures forall f :: f in result ==> f in q.families
    ensures forall f :: f in q.families ==> Elems(At(result, f)) == NodeAddresses(q, c, f, nodes)
    ensures forall f :: f in q.families ==> (f in result <==> NodeAddresses(q, c, f, nodes) != {})
  {
    hide NodeAddresses;
    forall f | f in result ensures Elems(At(result, f)) != {} {
      assert result[f][0] in Elems(At(result, f));
    }
  }

  lemma EmptyGathers(q: Query, c: State)
    ensures Gathers(q, c, {}, map[])
  {
  }

  /** The final loop of `backendTargets`. */
  method SortEach(before: Addresses) returns (r: Addresses)
    ensures r.Keys == before.Keys && forall f :: f in before ==> r[f] == SortedStrings(Elems(before[f]))
    ensures forall f :: At(r, f) == SortedStrings(Elems(At(before, f)))
  {
    r := before;
    var todo := before.Keys;
    while todo != {}
      invariant todo <= before.Keys == r.Keys
      invariant forall f :: f in before ==> r[f] == if f in todo then before[f] else SortedStrings(Elems(before[f]))
      decreases todo
    {
      var f :| f in todo;
      var list := SortedUniqueStrings(r[f]);
      r := r[f := list];
      todo := todo - {f};
    }
    SortedStringsLists({});
  }

  lemma HostAddressesStep(q: Query, c: State, f: Family, backends: seq<Name>, b: Name)
    ensures
      HostAddresses(q, c, f, Elems(backends + [b]))
          == HostAddresses(q, c, f, Elems(backends)) + BackendAddresses(q, c, f, b)
  {
    hide BackendAddresses;
    forall x ensures x in Elems(backends + [b]) <==> x in Elems(backends) || x == b { }
  }

  /** The running union over the backends of one hostname. */
  ghost predicate Sums(q: Query, c: State, backends: seq<Name>, targets: map<Family, set<string>>) {
    forall f :: f in targets && (f in q.families ==> targets[f] == HostAddresses(q, c, f, Elems(backends)))
  }

  lemma SumsEmpty(q: Query, c: State)
    ensures Sums(q, c, [], map[IPv4 := {}, IPv6 := {}])
  {
    var m: map<Family, set<string>> := map[IPv4 := {}, IPv6 := {}];
    forall f: Family ensures f in m && m[f] == {} {
      assert f == IPv4 || f == IPv6;
    }
  }

  lemma SumsStep(q: Query, c: State, backends: seq<Name>, b: Name, before: map<Family, set<string>>,
                 resolved: Addresses,
                 after: map<Family, set<string>>)
    requires Sums(q, c, backends, before)
    requires forall f :: f in q.families ==> At(resolved, f) == SortedStrings(BackendAddresses(q, c, f, b))
    requires after == map f | f in before :: before[f] + Elems(At(resolved, f))
    ensures Sums(q, c, backends + [b], after)
  {
    forall f | f in q.families ensures f in after && after[f] == HostAddresses(q, c, f, Elems(backends + [b])) {
      HostAddressesStep(q, c, f, backends, b);
      SortedStringsLists(BackendAddresses(q, c, f, b));
      hide HostAddresses, BackendAddresses, At, SortedStrings;
    }
  }

  /** The addresses of all backends of one hostname. */
  method HostTargets(q: Query, c: State, backends: seq<Name>) returns (r: Option<map<Family, set<string>>>)
    ensures r.None? <==> exists b :: b in backends && !Resolves(q, c, b)
    ensures
      r.Some? ==> forall f :: f in q.families ==> f in r.value && r.value[f] == HostAddresses(q, c, f, Elems(backends))
  {
    var targets: map<Family, set<string>> := map[IPv4 := {}, IPv6 := {}];
    SumsEmpty(q, c);
    hide Sums, Resolves, HostAddresses, BackendAddresses;
    for i := 0 to |backends|
      invariant forall j :: 0 <= j < i ==> Resolves(q, c, backends[j])
      invariant Sums(q, c, backends[..i], targets)
    {
      var resolved := BackendTargets(q, c, backends[i]);
      if resolved.None? {
        return None;
      }
      var next := map f | f in targets :: targets[f] + Elems(At(resolved.value, f));
      SumsStep(q, c, backends[..i], backends[i], targets, resolved.value, next);
      assert backends[..i + 1] == backends[..i] + [backends[i]];
      targets := next;
    }
    assert backends[..|backends|] == backends;
    SumsAll(q, c, backends, targets);
    r := Some(targets);
  }

  lemma SumsAll(q: Query, c: State, backends: seq<Name>, targets: map<Family, set<string>>)
    requires Sums(q, c, backends, targets)
    ensures forall f :: f in q.families ==> f in targets && targets[f] == HostAddresses(q, c, f, Elems(backends))
  {
  }
}
