/** Inherited annotations and what they say. */
module AnnotationText {
  import opened Lifecycle
  import opened Ordering
  import opened Text
  import opened Names
  import opened Cluster

  const LABDNS := "labdns.shednet.dev/"
  const EXTERNAL_DNS := "external-dns.alpha.kubernetes.io/"
  const ENABLED := LABDNS + "enabled"
  const PROVIDERS := LABDNS + "providers"
  const HOSTNAMES := LABDNS + "hostnames"
  const TTL := LABDNS + "ttl"
  const FAMILIES := LABDNS + "address-families"
  const DELETION_DELAY := LABDNS + "deletion-delay"

  predicate IsRelevant(key: string) { HasPrefix(key, LABDNS) || HasPrefix(key, EXTERNAL_DNS) }

  function Relevant(m: Annotations): Annotations { map k | k in m && IsRelevant(k) :: m[k] }

  /** The later level wins wherever it has the key at all. */
  function Merged(levels: seq<Annotations>): Annotations {
    if levels == [] then map[] else Merged(levels[..|levels| - 1]) + Relevant(levels[|levels| - 1])
  }

  method MergeAnnotations(levels: seq<Annotations>) returns (out: Annotations)
    ensures out == Merged(levels)
  {
    out := map[];
    for i := 0 to |levels|
      invariant out == Merged(levels[..i])
    {
      assert levels[..i + 1][..i] == levels[..i];
      out := out + Relevant(levels[i]);
    }
    assert levels[..|levels|] == levels;
  }

  /** Whose value a key has after merging: that of the last level that mentions it. */
  lemma {:induction false} MergedAt(levels: seq<Annotations>, key: string) returns (at: nat)
    ensures key in Merged(levels) <==> IsRelevant(key) && exists i :: 0 <= i < |levels| && key in levels[i]
    ensures key in Merged(levels) ==>
              && at < |levels| && key in levels[at] && Merged(levels)[key] == levels[at][key]
              && forall j :: at < j < |levels| ==> key !in levels[j]
  {
    at := 0;
    if levels != [] {
      var n := |levels| - 1;
      hide IsRelevant;
      at := MergedAt(levels[..n], key);
      if key in Merged(levels[..n]) { assert key in levels[at]; }
      if key in Relevant(levels[n]) {
        at := n;
      }
    }
  }

  function Pieces(s: string): seq<string> { Fields(s, ',') }

  /** The items of a comma list: trimmed, the empty ones dropped. */
  function Tokens(s: string): set<string> {
    set p | p in Pieces(s) && TrimSpace(p) != "" :: TrimSpace(p)
  }

  /** `splitTokens`, the key function of the provider index. */
  method SplitTokens(value: string) returns (values: set<string>)
    ensures values == Tokens(value)
  {
    var pieces := Pieces(value);
    values := {};
    for i := 0 to |pieces|
      invariant values == set p | p in pieces[..i] && TrimSpace(p) != "" :: TrimSpace(p)
    {
      assert pieces[..i + 1] == pieces[..i] + [pieces[i]];
      var item := TrimSpace(pieces[i]);
      if item != "" {
        values := values + {item};
      }
    }
    assert pieces[..|pieces|] == pieces;
  }

  /** `commaList`, what the reconcilers read: the same items, listed sorted. */
  method CommaList(value: string) returns (r: seq<string>)
    ensures r == SortedStrings(Tokens(value))
  {
    var items := Pieces(value);
    var list: seq<string> := [];
    for i := 0 to |items|
      invariant Elems(list) == set p | p in items[..i] && TrimSpace(p) != "" :: TrimSpace(p)
    {
      assert items[..i + 1] == items[..i] + [items[i]];
      var item := TrimSpace(items[i]);
      if item != "" {
        ghost var before := list;
        list := list + [item];
        assert Elems(list) == Elems(before) + {item};
      }
    }
    assert items[..|items|] == items;
    assert Elems(list) == Tokens(value);
    r := SortedUniqueStrings(list);
  }

  function ParseBool(s: string): Option<bool> {
    if s in ["1", "t", "T", "TRUE", "true", "True"] then Some(true)
    else if s in ["0", "f", "F", "FALSE", "false", "False"] then Some(false)
    else None
  }

  predicate FamilyLess(a: Family, b: Family) { a == IPv4 && b == IPv6 }

  function FamilyOf(s: string): Option<Family> {
    if ToLower(s) == "ipv4" then Some(IPv4) else if ToLower(s) == "ipv6" then Some(IPv6) else None
  }

  ghost function SortedFamilies(s: set<Family>): seq<Family> { SortSet(FamilyLess, s) }

  datatype Parsed = Parsed(
    enabled: bool,
    providers: seq<string>,
    hostnames: seq<string>,
    ttl: Option<int>,
    families: seq<Family>,
    deletionDelay: Option<int>,
    resolved: Annotations)

  predicate GoodProvider(name: string) { |name| <= 63 && Subdomain(name) }

  function ItemsAt(values: Annotations, key: string): set<string> {
    if key in values then Tokens(values[key]) else {}
  }

  function EnabledOf(values: Annotations): Option<bool> {
    if ENABLED in values then ParseBool(TrimSpace(values[ENABLED])) else Some(false)
  }

  /** An optional number: absent, or in range. */
  function NumberAt(parse: string -> Option<int>, values: Annotations, key: string, low: int, high: Option<int>)
    : Option<Option<int>>
  {
    if key !in values then Some(None)
    else
      var n := parse(TrimSpace(values[key]));
      if n.None? || n.value < low || (high.Some? && n.value > high.value) then None else Some(n)
  }

  function TtlOf(p: Parsers, values: Annotations): Option<Option<int>> {
    NumberAt(p.int64, values, TTL, 1, Some(2147483647))
  }

  function DelayOf(p: Parsers, values: Annotations): Option<Option<int>> {
    NumberAt(p.duration, values, DELETION_DELAY, 0, None)
  }

  /** What `ParseAnnotations` accepts. */
  ghost predicate Acceptable(p: Parsers, values: Annotations) {
    && EnabledOf(values).Some?
    && (forall t :: t in ItemsAt(values, PROVIDERS) ==> GoodProvider(t))
    && (forall t :: t in ItemsAt(values, HOSTNAMES) ==> NormalizeHostname(t).Some?)
    && TtlOf(p, values).Some?
    && DelayOf(p, values).Some?
    && (forall t :: t in ItemsAt(values, FAMILIES) ==> FamilyOf(t).Some?)
  }

  ghost function Parse(p: Parsers, values: Annotations): Option<Parsed> {
    if !Acceptable(p, values) then None
    else Some(Parsed(
      EnabledOf(values).value,
      SortedStrings(ItemsAt(values, PROVIDERS)),
      SortedStrings(set t | t in ItemsAt(values, HOSTNAMES) :: NormalizeHostname(t).value),
      TtlOf(p, values).value,
      SortedFamilies(set t | t in ItemsAt(values, FAMILIES) :: FamilyOf(t).value),
      DelayOf(p, values).value,
      Relevant(values)))
  }

  method HostnameOverrides(items: seq<string>) returns (r: Option<seq<string>>)
    ensures r.None? <==> exists t :: t in items && NormalizeHostname(t).None?
    ensures r.Some? ==> r.value == SortedStrings(set t | t in items :: NormalizeHostname(t).value)
  {
    hide NormalizeHostname;
    var list: seq<string> := [];
    for i := 0 to |items|
      invariant forall t :: t in items[..i] ==> NormalizeHostname(t).Some?
      invariant Elems(list) == set t | t in items[..i] :: NormalizeHostname(t).value
    {
      assert items[..i + 1] == items[..i] + [items[i]];
      var normalized := NormalizeHostname(items[i]);
      if normalized.None? {
        return None;
      }
      ghost var before := list;
      list := list + [normalized.value];
      assert Elems(list) == Elems(before) + {normalized.value};
    }
    assert items[..|items|] == items;
    var sorted := SortedUniqueStrings(list);
    r := Some(sorted);
  }

  /** `uniqueFamilies` over the items of the address-families annotation. */
  method FamilyList(items: seq<string>) returns (r: Option<seq<Family>>)
    ensures r.None? <==> exists t :: t in items && FamilyOf(t).None?
    ensures r.Some? ==> r.value == SortedFamilies(set t | t in items :: FamilyOf(t).value)
  {
    var seen: set<Family> := {};
    var list: seq<Family> := [];
    for i := 0 to |items|
      invariant forall j :: 0 <= j < i ==> FamilyOf(items[j]).Some?
      invariant seen == Elems(list) == set j | 0 <= j < i :: FamilyOf(items[j]).value
    {
      var family := FamilyOf(items[i]);
      if family.None? {
        return None;
      }
      ghost var before := list;
      if family.value !in seen {
        seen := seen + {family.value};
        list := list + [family.value];
        assert Elems(list) == Elems(before) + {family.value};
      }
    }
    assert Elems(list) == set t | t in items :: FamilyOf(t).value;
    TotalIsWeak(FamilyLess);
    var sorted := Sort(FamilyLess, list);
    sorted := Compact(FamilyLess, sorted);
    SortedIsSortSet(FamilyLess, sorted);
    assert Elems(sorted) == Elems(list);
    r := Some(sorted);
  }

  method ParseAnnotations(p: Parsers, values: Annotations) returns (r: Option<Parsed>)
    ensures r == Parse(p, values)
  {
    hide IsRelevant, Tokens, NormalizeHostname, FamilyOf, ParseBool, GoodProvider;
    var enabled := EnabledOf(values);
    if enabled.None? {
      return None;
    }
    var providers: seq<string> := SortedEmpty();
    if PROVIDERS in values {
      providers := CommaList(values[PROVIDERS]);
    }
    SortedStringsLists(ItemsAt(values, PROVIDERS));
    for i := 0 to |providers|
      invariant forall j :: 0 <= j < i ==> GoodProvider(providers[j])
    {
      if !GoodProvider(providers[i]) {
        assert providers[i] in ItemsAt(values, PROVIDERS);
        return None;
      }
    }
    var items: seq<string> := SortedEmpty();
    if HOSTNAMES in values {
      items := CommaList(values[HOSTNAMES]);
    }
    SortedStringsLists(ItemsAt(values, HOSTNAMES));
    var hostnames := HostnameOverrides(items);
    if hostnames.None? {
      return None;
    }
    var ttl := TtlOf(p, values);
    if ttl.None? {
      return None;
    }
    var delay := DelayOf(p, values);
    if delay.None? {
      return None;
    }
    var names: seq<string> := SortedEmpty();
    if FAMILIES in values {
      names := CommaList(values[FAMILIES]);
    }
    SortedStringsLists(ItemsAt(values, FAMILIES));
    var families := FamilyList(names);
    if families.None? {
      return None;
    }
    r := Some(Parsed(enabled.value, providers, hostnames.value, ttl.value, families.value, delay.value,
        Relevant(values)));
    Parsing(p, values, items, names);
  }

  method SortedEmpty() returns (r: seq<string>)
    ensures r == SortedStrings({})
  {
    r := StringSet({});
  }

  lemma Parsing(p: Parsers, values: Annotations, items: seq<string>, names: seq<string>)
    requires Elems(items) == ItemsAt(values, HOSTNAMES) && Elems(names) == ItemsAt(values, FAMILIES)
    requires forall t :: t in items ==> NormalizeHostname(t).Some?
    requires forall t :: t in names ==> FamilyOf(t).Some?
    ensures forall t :: t in ItemsAt(values, HOSTNAMES) ==> NormalizeHostname(t).Some?
    ensures forall t :: t in ItemsAt(values, FAMILIES) ==> FamilyOf(t).Some?
    ensures
      (set t | t in items :: NormalizeHostname(t).value)
      == set t | t in ItemsAt(values, HOSTNAMES) :: NormalizeHostname(t).value
    ensures (set t | t in names :: FamilyOf(t).value) == set t | t in ItemsAt(values, FAMILIES) :: FamilyOf(t).value
  {
    forall t ensures t in items <==> t in ItemsAt(values, HOSTNAMES) { assert t in Elems(items) <==> t in items; }
    forall t ensures t in names <==> t in ItemsAt(values, FAMILIES) { assert t in Elems(names) <==> t in names; }
  }
}
