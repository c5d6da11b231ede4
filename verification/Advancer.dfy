/** `Advance`, step by step, with its conflict retries. */
module Advancer {
  import opened Ordering
  import opened Endpoints
  import opened Lifecycle
  import opened Objects
  import opened WriterSpec
  import opened WriterLaws
  import opened AdvanceLaws
  import opened Records
  import opened Builder
  import opened Drain

  /** What the loop over the pending list has computed: the waiting part of the list, the expired
      targets, and the delay, which starts from what earlier attempts left in it. */
  ghost predicate Split(pending: map<TargetKey, int>, now: int, kept: seq<PendingTarget>, expired: set<TargetKey>) {
    && DistinctKeys(kept)
    && (forall p :: p in kept ==> p.deadline.Instant?)
    && PendingMap(kept) == Waiting(pending, now)
    && expired == Due(pending, now)
  }

  /** The running minimum: zero means nothing has been seen yet. */
  ghost predicate Least(start: int, pending: map<TargetKey, int>, now: int, next: int) {
    && next >= 0
    && (next == 0 <==> start == 0 && Waiting(pending, now) == map[])
    && (start != 0 ==> next <= start)
    && (forall k :: k in Waiting(pending, now) ==> next <= pending[k] - now)
    && (next == start || exists k :: k in Waiting(pending, now) && next == pending[k] - now)
  }

  lemma LeastFromZero(pending: map<TargetKey, int>, now: int, next: int)
    requires Least(0, pending, now, next)
    ensures IsNext(pending, now, next)
  {
  }

  /** One more entry of the list in the running minimum. */
  lemma LeastStep(start: int, pending: map<TargetKey, int>, now: int, next: int, k: TargetKey, at: int, next': int)
    requires Least(start, pending, now, next) && k !in pending
    requires next' == if at <= now then next else if next == 0 || at - now < next then at - now else next
    ensures Least(start, pending[k := at], now, next')
  {
    var more := pending[k := at];
    WaitingMore(pending, now, k, at);
    if at > now {
      assert k in Waiting(more, now);
      if next' == next && next != start {
        var j :| j in Waiting(pending, now) && next == pending[j] - now;
        assert j in Waiting(more, now) && more[j] == pending[j];
      }
    }
  }

  function Due(pending: map<TargetKey, int>, now: int): set<TargetKey> { set k | k in pending && pending[k] <= now }

  lemma WaitingMore(pending: map<TargetKey, int>, now: int, k: TargetKey, at: int)
    requires k !in pending
    ensures Waiting(pending[k := at], now) == if at > now then Waiting(pending, now)[k := at] else Waiting(pending, now)
    ensures Due(pending[k := at], now) == if at > now then Due(pending, now) else Due(pending, now) + {k}
  {
  }

  lemma SplitMore(pending: map<TargetKey, int>, now: int, kept: seq<PendingTarget>, expired: set<TargetKey>,
                  p: PendingTarget)
    requires Split(pending, now, kept, expired) && p.key !in pending && p.deadline.Instant?
    ensures
      if Deadline(p) <= now then Split(pending[p.key := Deadline(p)], now, kept, expired + {p.key})
      else Split(pending[p.key := Deadline(p)], now, kept + [p], expired)
  {
    WaitingMore(pending, now, p.key, Deadline(p));
    if Deadline(p) > now {
      assert p.key !in Waiting(pending, now);
      KeptSnoc(kept, p);
    }
    hide PendingMap, Waiting, DistinctKeys, Due;
  }

  lemma SplitStep(list: seq<PendingTarget>, i: nat, now: int, kept: seq<PendingTarget>, expired: set<TargetKey>)
    requires i < |list| && DistinctKeys(list) && forall p :: p in list ==> p.deadline.Instant?
    requires Split(PendingMap(list[..i]), now, kept, expired)
    ensures list[i].key !in PendingMap(list[..i])
    ensures PendingMap(list[..i + 1]) == PendingMap(list[..i])[list[i].key := Deadline(list[i])]
    ensures
      if Deadline(list[i]) <= now then Split(PendingMap(list[..i + 1]), now, kept, expired + {list[i].key})
      else Split(PendingMap(list[..i + 1]), now, kept + [list[i]], expired)
  {
    hide Split;
    var p := list[i];
    var before := PendingMap(list[..i]);
    assert list[..i + 1][..i] == list[..i];
    PendingMapHas(list[..i], p.key);
    assert list[i] in list;
    assert p.key !in before;
    SplitMore(before, now, kept, expired, p);
  }

  lemma KeptSnoc(kept: seq<PendingTarget>, p: PendingTarget)
    requires DistinctKeys(kept) && p.key !in PendingMap(kept)
    ensures DistinctKeys(kept + [p]) && PendingMap(kept + [p]) == PendingMap(kept)[p.key := Deadline(p)]
  {
    assert (kept + [p])[..|kept|] == kept;
    forall j | 0 <= j < |kept| ensures kept[j].key != p.key {
      PendingMapHas(kept, kept[j].key);
      assert kept[j] in kept;
    }
  }

  /** The loop over the parsed list: which entries wait, which are due, and the least remaining time.
      An entry whose target is missing from the spec stops it. */
  method SplitPending(list: seq<PendingTarget>, ghost stored: map<TargetKey, int>, current: set<TargetKey>, now: int,
                      start: int)
    returns (ok: bool, kept: seq<PendingTarget>, expired: set<TargetKey>, next: int)
    requires list == Listing(stored) && PendingMap(list) == stored && DistinctKeys(list) && start >= 0
    requires forall p :: p in list ==> p.deadline.Instant?
    ensures ok <==> stored.Keys <= current
    ensures ok ==> Split(stored, now, kept, expired) && Least(start, stored, now, next)
    ensures next >= 0
  {
    hide Listing, PendingMap;
    ok, kept, expired, next := true, [], {}, start;
    EmptyPending(now, start);
    for i := 0 to |list|
      invariant next >= 0
      invariant forall j :: 0 <= j < i ==> list[j].key in current
      invariant Split(PendingMap(list[..i]), now, kept, expired) && Least(start, PendingMap(list[..i]), now, next)
    {
      var item := list[i];
      if item.key !in current {
        PendingMapAt(list, item);
        return false, kept, expired, next;
      }
      SplitStep(list, i, now, kept, expired);
      ghost var before := next;
      var remaining := Deadline(item) - now;
      if remaining <= 0 {
        expired := expired + {item.key};
      } else {
        kept := kept + [item];
        if next == 0 || remaining < next {
          next := remaining;
        }
      }
      LeastStep(start, PendingMap(list[..i]), now, before, item.key, Deadline(item), next);
      hide Split, Least;
      assert list[..i + 1] == list[..i] + [item];
    }
    assert list[..|list|] == list;
    forall k | k in stored ensures k in current {
      PendingMapHas(list, k);
      var p :| p in list && p.key == k;
    }
  }

  lemma EmptyPending(now: int, start: int)
    requires start >= 0
    ensures Split(PendingMap([]), now, [], {}) && Least(start, PendingMap([]), now, start)
  {
  }

  /** The record list without the expired targets and without the records they leave empty. */
  function Filtered(eps: seq<Endpoint>, expired: set<TargetKey>): seq<Endpoint> {
    if eps == [] then []
    else
      var e := eps[|eps| - 1];
      var rest := Filtered(eps[..|eps| - 1], expired);
      var targets := Unretired(e.id, e.targets, expired);
      if targets == [] then rest else rest + [e.(targets := targets)]
  }

  method FilterTargets(e: Endpoint, expired: set<TargetKey>) returns (targets: seq<string>)
    ensures targets == Unretired(e.id, e.targets, expired)
  {
    targets := [];
    for i := 0 to |e.targets|
      invariant targets == Unretired(e.id, e.targets[..i], expired)
    {
      assert e.targets[..i + 1][..i] == e.targets[..i];
      if TargetKey(e.id, e.targets[i]) !in expired {
        targets := targets + [e.targets[i]];
      }
    }
    assert e.targets[..|e.targets|] == e.targets;
  }

  method FilterEndpoints(eps: seq<Endpoint>, expired: set<TargetKey>) returns (r: seq<Endpoint>)
    ensures r == Filtered(eps, expired)
  {
    r := [];
    for i := 0 to |eps|
      invariant r == Filtered(eps[..i], expired)
    {
      assert eps[..i + 1][..i] == eps[..i];
      var targets := FilterTargets(eps[i], expired);
      if |targets| > 0 {
        r := r + [eps[i].(targets := targets)];
      }
    }
    assert eps[..|eps|] == eps;
  }

  lemma {:induction false} UnretiredSorted(id: RecordId, targets: seq<string>, expired: set<TargetKey>)
    requires StrictlySorted(StringLess, targets)
    ensures StrictlySorted(StringLess, Unretired(id, targets, expired))
  {
    if targets != [] {
      var n := |targets| - 1;
      UnretiredSorted(id, targets[..n], expired);
      var rest := Unretired(id, targets[..n], expired);
      forall j | 0 <= j < |rest| ensures StringLess(rest[j], targets[n]) {
        assert rest[j] in rest;
        assert rest[j] in targets[..n];
      }
    }
  }

  lemma KeysOfSnoc(eps: seq<Endpoint>, e: Endpoint)
    ensures KeysOf(eps + [e]) == KeysOf(eps) + EndpointKeys(e)
  {
    assert (eps + [e])[..|eps|] == eps;
  }

  lemma UnretiredKeys(e: Endpoint, expired: set<TargetKey>)
    ensures EndpointKeys(e.(targets := Unretired(e.id, e.targets, expired))) == EndpointKeys(e) - expired
  {
  }

  lemma FilteredNext(eps: seq<Endpoint>, expired: set<TargetKey>)
    requires eps != []
    ensures
      var e, rest := eps[|eps| - 1], Filtered(eps[..|eps| - 1], expired);
      var f := e.(targets := Unretired(e.id, e.targets, expired));
      Filtered(eps, expired) == if f.targets == [] then rest else rest + [f]
  {
    hide Unretired;
  }

  lemma NothingFiltered(expired: set<TargetKey>)
    ensures KeysOf(Filtered([], expired)) == {} && KeysOf([]) == {}
  {
  }

  lemma {:induction false} FilteredKeys(eps: seq<Endpoint>, expired: set<TargetKey>)
    ensures KeysOf(Filtered(eps, expired)) == KeysOf(eps) - expired
  {
    hide KeysOf, Unretired, Filtered, EndpointKeys;
    if eps == [] {
      NothingFiltered(expired);
    } else {
      var n := |eps| - 1;
      var e, rest := eps[n], Filtered(eps[..n], expired);
      var f := e.(targets := Unretired(e.id, e.targets, expired));
      FilteredKeys(eps[..n], expired);
      FilteredNext(eps, expired);
      UnretiredKeys(e, expired);
      assert eps == eps[..n] + [e];
      KeysOfSnoc(eps[..n], e);
      KeysOfSnoc(rest, f);
      assert f.targets == [] ==> EndpointKeys(f) == {} by { NoKeys(f); }
    }
  }

  lemma NoKeys(e: Endpoint)
    ensures e.targets == [] ==> EndpointKeys(e) == {}
  {
  }

  /** The members of the filtered list, in terms of the list. */
  lemma {:induction false} FilteredMembers(eps: seq<Endpoint>, expired: set<TargetKey>, f: Endpoint)
    requires f in Filtered(eps, expired)
    ensures f.targets != [] && exists e :: e in eps && f == e.(targets := Unretired(e.id, e.targets, expired))
  {
    var n := |eps| - 1;
    if f in Filtered(eps[..n], expired) {
      FilteredMembers(eps[..n], expired, f);
      var e :| e in eps[..n] && f == e.(targets := Unretired(e.id, e.targets, expired));
      assert e in eps;
    } else {
      assert eps[n] in eps;
    }
  }

  lemma {:induction false} FilteredSorted(eps: seq<Endpoint>, expired: set<TargetKey>)
    requires SortedIds(eps)
    ensures SortedIds(Filtered(eps, expired))
  {
    if eps != [] {
      var n := |eps| - 1;
      assert IdsOf(eps[..n]) == IdsOf(eps)[..n];
      FilteredSorted(eps[..n], expired);
      var rest := Filtered(eps[..n], expired);
      var r := Filtered(eps, expired);
      forall j | 0 <= j < |rest| ensures IdLess(rest[j].id, eps[n].id) {
        FilteredMembers(eps[..n], expired, rest[j]);
        var e :| e in eps[..n] && rest[j] == e.(targets := Unretired(e.id, e.targets, expired));
        var i :| 0 <= i < n && eps[i] == e;
        assert IdLess(IdsOf(eps)[i], IdsOf(eps)[n]);
      }
      SortedSnoc(rest, r, eps[n].id);
    }
  }

  lemma SortedSnoc(rest: seq<Endpoint>, r: seq<Endpoint>, id: RecordId)
    requires SortedIds(rest) && (r == rest || (|r| == |rest| + 1 && r[..|rest|] == rest && r[|rest|].id == id))
    requires forall j :: 0 <= j < |rest| ==> IdLess(rest[j].id, id)
    ensures SortedIds(r)
  {
    var ids := IdsOf(r);
    forall i, j | 0 <= i < j < |ids| ensures IdLess(ids[i], ids[j]) {
      assert r[i] == rest[i];
      if j < |rest| { assert r[j] == rest[j]; assert IdLess(IdsOf(rest)[i], IdsOf(rest)[j]); }
    }
  }

  /** Filtering a normal list gives the layout of what is left. */
  lemma FilteredIsLayout(eps: seq<Endpoint>, expired: set<TargetKey>)
    requires Normalised(eps)
    ensures
      var keys := KeysOf(eps) - expired;
      Filtered(eps, expired) == Layout(Restrict(AttrsOf(eps), keys), keys)
  {
    var r := Filtered(eps, expired);
    var keys := KeysOf(eps) - expired;
    FilteredKeys(eps, expired);
    FilteredSorted(eps, expired);
    SortedIdsDistinct(eps);
    forall f | f in r
      ensures f.targets != [] && StrictlySorted(StringLess, f.targets) && Sorted(PropertyLess, f.attr.properties)
      ensures f.id in AttrsOf(eps) && f.attr == AttrsOf(eps)[f.id]
    {
      FilteredMembers(eps, expired, f);
      var e :| e in eps && f == e.(targets := Unretired(e.id, e.targets, expired));
      UnretiredSorted(e.id, e.targets, expired);
      AttrsOfAt(eps, e);
    }
    NormalisedIsLayout(r);
    NormalIds(r);
    SortedIdsDistinct(r);
    forall id | id in AttrsOf(r) ensures id in AttrsOf(eps) && AttrsOf(r)[id] == AttrsOf(eps)[id] {
      AttrsOfHas(r, id);
      var f :| f in r && f.id == id;
      AttrsOfAt(r, f);
    }
    assert AttrsOf(r) == Restrict(AttrsOf(eps), keys);
  }

  /** One attempt of `Advance`. */
  method AdvanceAttempt(current: Option<Object>, now: int, start: int) returns (a: Action, next: int)
    requires start >= 0
    ensures (current.Some? ==> DistinctIds(current.value.endpoints)) ==> a == Advance(current, now)
    ensures a.Fail? <==> current.Some? && Managed(current.value) && !Readable(current.value)
    ensures
      current.Some? && Managed(current.value) && Readable(current.value) ==>
        Least(start, Pending(current.value), now, next)
    ensures current.None? || !Managed(current.value) ==> next == start
    ensures next >= 0
  {
    next := start;
    if current.None? || Lookup(current.value.labels, ManagedBy) != MANAGED_BY_VALUE {
      return NoWrite, next;
    }
    var o := current.value;
    var parsed := ParseLifecycle(o.lifecycle);
    if !GoodDelay(o.delay) || parsed.None? {
      return Fail, next;
    }
    ListingOf(o.lifecycle);
    var normal := NormalizeEndpoints(o.endpoints);
    var currentTargets := EndpointTargets(normal);
    hide Listing, KeysOf, AttrsOf, IsNormalising, NormAttrs, Least;
    var ok, kept, expired;
    ok, kept, expired, next := SplitPending(parsed.value, Pending(o), currentTargets, now, start);
    if !ok {
      return Fail, next;
    }
    if expired == {} {
      return NoWrite, next;
    }
    var filtered := FilterEndpoints(normal, expired);
    AdvanceResult(o, now, normal, filtered, expired);
    if |filtered| == 0 {
      return Delete, next;
    }
    var text := MarshalLifecycle(kept);
    assert Waiting(Pending(o), now) == (map k | k in Pending(o) && k !in expired :: Pending(o)[k]);
    a := Update(o.(endpoints := filtered, lifecycle := text));
  }

  lemma ListingOf(text: LifecycleText)
    requires ValidText(text)
    ensures
      var list := Listing(PendingMap(text.pending));
      && PendingMap(list) == PendingMap(text.pending) && DistinctKeys(list)
      && forall p :: p in list ==> p.deadline.Instant?
  {
    var m := PendingMap(text.pending);
    forall k | k in m ensures FilledKey(k) {
      PendingMapHas(text.pending, k);
      var p :| p in text.pending && p.key == k;
      assert GoodEntry(p);
    }
    MarshalRoundTrip(m);
  }

  lemma AdvanceResult(o: Object, now: int, normal: seq<Endpoint>, filtered: seq<Endpoint>, expired: set<TargetKey>)
    requires KeysOf(normal) == Keys(o) && IsNormalising(o.endpoints, normal)
    requires DistinctIds(o.endpoints) ==> normal == Layout(StoredAttrs(o), Keys(o))
    requires filtered == Filtered(normal, expired)
    ensures filtered == [] <==> Keys(o) - expired == {}
    ensures DistinctIds(o.endpoints) ==>
              filtered == Layout(Restrict(StoredAttrs(o), Keys(o) - expired), Keys(o) - expired)
  {
    FilteredKeys(normal, expired);
    if filtered != [] {
      FilteredMembers(normal, expired, filtered[0]);
      assert filtered[0].targets[0] in filtered[0].targets;
      KeysOfHas(filtered, TargetKey(filtered[0].id, filtered[0].targets[0]));
    }
    if DistinctIds(o.endpoints) {
      StoredAttrsSorted(o);
      LayoutNormalised(StoredAttrs(o), Keys(o));
      LayoutAttrs(StoredAttrs(o), Keys(o));
      FilteredIsLayout(normal, expired);
    }
  }

  /** What the world gives one attempt: the object as read, the clock, whether a write conflicts. */
  datatype Attempt = Attempt(read: Option<Object>, now: int, conflict: bool)

  datatype Outcome = Finished(action: Action) | Conflict

  ghost predicate Readably(t: Attempt) { t.read.Some? && Managed(t.read.value) && Readable(t.read.value) }

  /** The times still to wait for what an attempt reads. */
  ghost function Remaining(t: Attempt): set<int> {
    if !Readably(t) then {}
    else
      var waiting := Waiting(Pending(t.read.value), t.now);
      set k | k in waiting :: waiting[k] - t.now
  }

  /** The least number of some sets, or zero when they are all empty. */
  ghost predicate LeastIn(sets: seq<set<int>>, next: int) {
    && next >= 0
    && (next == 0 <==> forall i :: 0 <= i < |sets| ==> sets[i] == {})
    && (forall i, r :: 0 <= i < |sets| && r in sets[i] ==> next <= r)
    && (next == 0 || exists i :: 0 <= i < |sets| && next in sets[i])
  }

  /** The least remaining time over the first `n` attempts. */
  ghost predicate LeastOver(attempts: seq<Attempt>, n: nat, next: int)
    requires n <= |attempts|
  {
    LeastIn(seq(n, i requires 0 <= i < n => Remaining(attempts[i])), next)
  }

  lemma RemainingLeast(t: Attempt, start: int, next: int)
    requires Readably(t) && start >= 0 && Least(start, Pending(t.read.value), t.now, next)
    ensures (next == 0 <==> start == 0 && Remaining(t) == {}) && next >= 0
    ensures (start != 0 ==> next <= start) && (forall r :: r in Remaining(t) ==> next <= r)
    ensures next == start || next in Remaining(t)
    ensures forall r :: r in Remaining(t) ==> r > 0
  {
    hide Readable, Pending;
    var pending := Pending(t.read.value);
    var waiting := Waiting(pending, t.now);
    assert forall k :: k in waiting ==> waiting[k] == pending[k] > t.now;
    if waiting != map[] {
      var k :| k in waiting;
      assert waiting[k] - t.now in Remaining(t);
    }
    if next != start {
      var k :| k in waiting && next == pending[k] - t.now;
      assert waiting[k] - t.now in Remaining(t);
    }
  }

  lemma LeastInMore(sets: seq<set<int>>, more: set<int>, start: int, next: int)
    requires LeastIn(sets, start) && next >= 0 && (next == 0 <==> start == 0 && more == {})
    requires (start != 0 ==> next <= start) && (forall r :: r in more ==> 0 < r && next <= r)
    requires next == start || next in more
    ensures LeastIn(sets + [more], next)
  {
    var all := sets + [more];
    assert all[|sets|] == more;
    if next != 0 && next == start {
      var i :| 0 <= i < |sets| && next in sets[i];
      assert all[i] == sets[i];
    }
    forall i | 0 <= i < |sets| ensures all[i] == sets[i] { }
  }

  lemma LeastInPositive(sets: seq<set<int>>, next: int)
    requires LeastIn(sets, next)
    ensures next >= 0
  {
  }

  lemma NothingRead(t: Attempt)
    requires !Readably(t)
    ensures Remaining(t) == {}
  {
  }

  lemma LeastOverMore(attempts: seq<Attempt>, n: nat, start: int, next: int)
    requires n < |attempts| && LeastOver(attempts, n, start)
    requires
      if Readably(attempts[n]) then Least(start, Pending(attempts[n].read.value), attempts[n].now, next)
          else next == start
    ensures LeastOver(attempts, n + 1, next)
  {
    hide LeastIn, Remaining, Least, Readably;
    var t := attempts[n];
    var before := seq(n, i requires 0 <= i < n => Remaining(attempts[i]));
    assert start >= 0 by { LeastInPositive(before, start); }
    if Readably(t) {
      RemainingLeast(t, start, next);
    } else {
      NothingRead(t);
    }
    LeastInMore(before, Remaining(t), start, next);
    assert seq(n + 1, i requires 0 <= i < n + 1 => Remaining(attempts[i])) == before + [Remaining(t)];
  }

  lemma ReadablyLeast(attempts: seq<Attempt>, n: nat, next: int, k: TargetKey)
    requires n < |attempts| && Readably(attempts[n]) && LeastOver(attempts, n + 1, next)
    requires k in Waiting(Pending(attempts[n].read.value), attempts[n].now)
    ensures next > 0 && attempts[n].now + next <= Pending(attempts[n].read.value)[k]
  {
    hide Readable, Pending;
    var t := attempts[n];
    var sets := seq(n + 1, i requires 0 <= i < n + 1 => Remaining(attempts[i]));
    assert Waiting(Pending(t.read.value), t.now)[k] - t.now in Remaining(t);
    assert sets[n] == Remaining(t);
  }

  /** `Advance` with its retries. The delay it keeps across attempts is the least remaining time over all of
      them: so it stays positive while the last object read has targets waiting and never oversleeps their
      earliest deadline, it is exact without a conflict, and after one it may be early, or left over from an
      attempt whose object has since gone. */
  method AdvanceWithRetries(attempts: seq<Attempt>) returns (next: int, outcome: Outcome, last: int)
    requires attempts != []
    ensures 0 <= last < |attempts| && next >= 0
    ensures outcome.Conflict? ==> last == |attempts| - 1
    ensures forall i :: 0 <= i < last ==> attempts[i].conflict
    ensures outcome != Finished(Fail) ==> LeastOver(attempts, last + 1, next)
    ensures
      var t := attempts[last];
      Readably(t) ==>
        && (last == 0 ==> IsNext(Pending(t.read.value), t.now, next))
        && (forall k :: k in Waiting(Pending(t.read.value), t.now) ==> 0 < next <= Pending(t.read.value)[k] - t.now)
    ensures
      outcome.Finished? && (attempts[last].read.Some? ==> DistinctIds(attempts[last].read.value.endpoints)) ==>
        outcome.action == Advance(attempts[last].read, attempts[last].now)
  {
    next, last := 0, 0;
    hide Advance, Readable, Pending, LeastOver, Least, DistinctIds;
    assert LeastOver(attempts, 0, 0) by { NothingYet(attempts); }
    while true
      invariant 0 <= last < |attempts| && next >= 0
      invariant forall i :: 0 <= i < last ==> attempts[i].conflict
      invariant last == 0 ==> next == 0
      invariant LeastOver(attempts, last, next)
      decreases |attempts| - last
    {
      var t := attempts[last];
      ghost var start := next;
      var a;
      a, next := AdvanceAttempt(t.read, t.now, next);
      if !a.Fail? {
        LeastOverMore(attempts, last, start, next);
      }
      if Readably(t) {
        if last == 0 { LeastFromZero(Pending(t.read.value), t.now, next); }
        forall k | k in Waiting(Pending(t.read.value), t.now) ensures 0 < next <= Pending(t.read.value)[k] - t.now {
          ReadablyLeast(attempts, last, next, k);
        }
      }
      if !((a.Update? || a.Delete?) && t.conflict) {
        return next, Finished(a), last;
      }
      if last == |attempts| - 1 {
        return next, Conflict, last;
      }
      last := last + 1;
    }
  }

  lemma NothingYet(attempts: seq<Attempt>)
    ensures LeastOver(attempts, 0, 0)
  {
  }
}
