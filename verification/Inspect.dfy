/** The CLI's view of an object: each record's targets, split into active and retiring. */
module Inspect {
  import opened Ordering
  import opened Text
  import opened Endpoints
  import opened Lifecycle
  import opened Objects
  import opened WriterSpec
  import opened WriterLaws
  import opened AdvanceLaws
  import opened History

  datatype Retire = Retire(target: string, deadline: int)

  /** A displayed record; without active targets when the lifecycle annotation is invalid. */
  datatype Shown = Shown(id: RecordId, targets: seq<string>, ttl: int, retiring: seq<Retire>,
      active: Option<seq<string>>)

  /** `strings.EqualFold` against an optional record type. */
  predicate Wanted(e: Endpoint, filter: Option<string>) {
    filter.None? || ToLower(e.id.recordType) == ToLower(filter.value)
  }

  function Matching(eps: seq<Endpoint>, filter: Option<string>): seq<Endpoint> {
    if eps == [] then []
    else
      var rest := Matching(eps[..|eps| - 1], filter);
      if Wanted(eps[|eps| - 1], filter) then rest + [eps[|eps| - 1]] else rest
  }

  /** Shown are exactly the records of the wanted type, in any letter case; all of them without a filter. */
  lemma {:induction false} MatchingExact(eps: seq<Endpoint>, filter: Option<string>, e: Endpoint)
    ensures
      e in Matching(eps, filter) <==>
        e in eps && (filter == None || ToLower(filter.value) == ToLower(e.id.recordType))
  {
    if eps != [] {
      var n := |eps| - 1;
      MatchingExact(eps[..n], filter, e);
      assert eps == eps[..n] + [eps[n]];
    }
  }

  /** What is shown of one record: all its targets, those pending with their deadlines, and the others. */
  ghost predicate Shows(o: Object, e: Endpoint, s: Shown) {
    && s.id == e.id && s.ttl == e.attr.ttl
    && Sorted(StringLess, s.targets) && multiset(s.targets) == multiset(e.targets)
    && (s.active.Some? <==> ValidText(o.lifecycle))
    && (ValidText(o.lifecycle) ==>
          && (forall t, d :: Retire(t, d) in s.retiring <==>
            TargetKey(e.id, t) in Pending(o) && Pending(o)[TargetKey(e.id, t)] == d)
          && (forall t :: t in s.active.value <==> t in e.targets && TargetKey(e.id, t) !in Pending(o))
          && Sorted(StringLess, s.active.value))
    && (!ValidText(o.lifecycle) ==> s.retiring == [])
  }

  method RetiringOf(list: seq<PendingTarget>, id: RecordId) returns (r: seq<Retire>)
    ensures
      forall x :: x in r <==> exists p :: p in list && p.key == TargetKey(id, x.target) && Deadline(p) == x.deadline
  {
    r := [];
    for i := 0 to |list|
      invariant
        forall x :: x in r <==> exists p ::
          p in list[..i] && p.key == TargetKey(id, x.target) && Deadline(p) == x.deadline
    {
      assert list[..i + 1] == list[..i] + [list[i]];
      if list[i].key.id == id {
        r := r + [Retire(list[i].key.target, Deadline(list[i]))];
      }
    }
    assert list[..|list|] == list;
  }

  method ActiveOf(targets: seq<string>, retiring: seq<Retire>) returns (r: seq<string>)
    requires Sorted(StringLess, targets)
    ensures forall t :: t in r <==> t in targets && !exists x :: x in retiring && x.target == t
    ensures Sorted(StringLess, r)
  {
    hide StringLess;
    var gone: set<string> := {};
    for i := 0 to |retiring|
      invariant forall t :: t in gone <==> exists x :: x in retiring[..i] && x.target == t
    {
      assert retiring[..i + 1] == retiring[..i] + [retiring[i]];
      gone := gone + {retiring[i].target};
    }
    assert retiring[..|retiring|] == retiring;
    r := [];
    for i := 0 to |targets|
      invariant forall t :: t in r <==> t in targets[..i] && t !in gone
      invariant Sorted(StringLess, r)
    {
      assert targets[..i + 1] == targets[..i] + [targets[i]];
      if targets[i] !in gone {
        forall j | 0 <= j < |r| ensures !StringLess(targets[i], r[j]) { assert r[j] in targets[..i]; }
        r := r + [targets[i]];
      }
    }
    assert targets[..|targets|] == targets;
  }

  lemma ListedRetiring(o: Object, list: seq<PendingTarget>, id: RecordId, retiring: seq<Retire>)
    requires ValidText(o.lifecycle) && list == Listing(PendingMap(o.lifecycle.pending))
    requires
      forall x :: x in retiring <==>
        exists p :: p in list && p.key == TargetKey(id, x.target) && Deadline(p) == x.deadline
    ensures
      forall t, d :: Retire(t, d) in retiring <==> TargetKey(id, t) in Pending(o) && Pending(o)[TargetKey(id, t)] == d
  {
    ListingMembers(Pending(o));
    hide Listing, PendingMap;
    forall t, d
      ensures Retire(t, d) in retiring <==> TargetKey(id, t) in Pending(o) && Pending(o)[TargetKey(id, t)] == d
    {
      var k := TargetKey(id, t);
      if k in Pending(o) && Pending(o)[k] == d {
        assert Lifecycle.Entry(Pending(o), k) in list;
      }
    }
  }

  method ShowRecord(o: Object, pending: Option<seq<PendingTarget>>, e: Endpoint) returns (s: Shown)
    requires pending.Some? <==> ValidText(o.lifecycle)
    requires pending.Some? ==> pending.value == Listing(PendingMap(o.lifecycle.pending))
    ensures Shows(o, e, s)
  {
    assert StrictWeak(StringLess) by { StringOrder(); TotalIsWeak(StringLess); }
    hide StringLess, Listing, PendingMap, ValidText;
    var targets := Sort(StringLess, e.targets);
    if pending.None? {
      return Shown(e.id, targets, e.attr.ttl, [], None);
    }
    var retiring := RetiringOf(pending.value, e.id);
    ListedRetiring(o, pending.value, e.id, retiring);
    var active := ActiveOf(targets, retiring);
    forall t ensures t in active <==> t in e.targets && TargetKey(e.id, t) !in Pending(o) {
      if TargetKey(e.id, t) in Pending(o) {
        assert Retire(t, Pending(o)[TargetKey(e.id, t)]) in retiring;
      }
      forall x | x in retiring && x.target == t ensures TargetKey(e.id, t) in Pending(o) {
        assert x == Retire(t, x.deadline);
      }
    }
    s := Shown(e.id, targets, e.attr.ttl, retiring, Some(active));
  }

  /** `recordsFor` */
  method RecordsFor(o: Object, filter: Option<string>) returns (r: seq<Shown>)
    ensures |r| == |Matching(o.endpoints, filter)|
    ensures forall i :: 0 <= i < |r| ==> Shows(o, Matching(o.endpoints, filter)[i], r[i])
  {
    var pending := ParseLifecycle(o.lifecycle);
    hide Listing, PendingMap, ValidText, Shows, Wanted;
    r := [];
    for i := 0 to |o.endpoints|
      invariant |r| == |Matching(o.endpoints[..i], filter)|
      invariant forall j :: 0 <= j < |r| ==> Shows(o, Matching(o.endpoints[..i], filter)[j], r[j])
    {
      assert o.endpoints[..i + 1][..i] == o.endpoints[..i];
      var item := o.endpoints[i];
      if filter.Some? && ToLower(item.id.recordType) != ToLower(filter.value) {
        assert !Wanted(item, filter) by { NotWanted(item, filter); }
        continue;
      }
      assert Wanted(item, filter) by { NotWanted(item, filter); }
      var shown := ShowRecord(o, pending, item);
      r := r + [shown];
    }
    assert o.endpoints[..|o.endpoints|] == o.endpoints;
  }

  lemma NotWanted(e: Endpoint, filter: Option<string>)
    ensures Wanted(e, filter) <==> filter.None? || ToLower(e.id.recordType) == ToLower(filter.value)
  {
  }

  /** THE CLI AGREES WITH THE WRITER. For every record of every reachable object, what is shown as active
      and as retiring are disjoint, together all its targets, and active is what the last committed
      publication desired for that record; every retiring target's deadline is still the stored one. */
  lemma ShownIsPublished(hash16: string -> string, h: seq<Entry>, n: nat, e: Endpoint, s: Shown) returns (p: nat)
    requires Serial(hash16, h) && GoodOps(h) && n <= |h| && Before(h, n).Some?
    requires e in Before(h, n).value.endpoints && Shows(Before(h, n).value, e, s)
    ensures p < n && Publishes(h, p) && forall j :: p < j < n ==> !Publishes(h, j)
    ensures s.active.Some?
    ensures forall t :: t in s.active.value <==> TargetKey(e.id, t) in DesiredBy(h[p].op)
    ensures forall t :: t in s.targets <==> t in s.active.value || exists d :: Retire(t, d) in s.retiring
    ensures
      forall t, d :: Retire(t, d) in s.retiring ==>
        t !in s.active.value && Pending(Before(h, n).value)[TargetKey(e.id, t)] == d
  {
    var o := Before(h, n).value;
    AlwaysSound(hash16, h, n);
    p := ActiveIsPublished(hash16, h, n);
    SameElements(s.targets, e.targets);
    SortedIdsDistinct(o.endpoints);
    hide Serial, GoodOps, NormalForm, StringLess, PendingMap, Publishes, DesiredBy;
    forall t ensures TargetKey(e.id, t) in Keys(o) <==> t in e.targets {
      KeysOfHas(o.endpoints, TargetKey(e.id, t));
      if HasKey(o.endpoints, TargetKey(e.id, t)) {
        var f :| f in o.endpoints && f.id == e.id && t in f.targets;
      }
    }
    hide KeysOf;
    forall t | t in s.targets ensures t in s.active.value || exists d :: Retire(t, d) in s.retiring {
      var k := TargetKey(e.id, t);
      if k in Pending(o) { assert Retire(t, Pending(o)[k]) in s.retiring; }
    }
    forall t, d | Retire(t, d) in s.retiring ensures t in s.targets {
      assert TargetKey(e.id, t) in Keys(o);
    }
    forall t ensures t in s.active.value <==> TargetKey(e.id, t) in DesiredBy(h[p].op) {
      assert TargetKey(e.id, t) in Active(o) <==> t in s.active.value;
    }
  }
}
