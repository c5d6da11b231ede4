/** The diagnostic rate limiter as a state machine over its calls: a bounded cache of sources in recency
    order, each with a bounded table of the diagnostics it last emitted. */
module Diagnostics {
  import opened Ordering

  datatype Source = Source(kind: string, namespace: string, name: string, uid: string)
  datatype Diagnostic = Diagnostic(severity: string, reason: string, message: string)

  type Conditions = map<Diagnostic, int>

  /** The sources, most recently touched first, and when each diagnostic was last emitted. */
  datatype Cache = Cache(order: seq<Source>, last: map<Source, Conditions>)

  const SOURCE_CAPACITY := 4096
  const CONDITION_LIMIT := 128

  function Capacity(configured: int): nat { if configured <= 0 then SOURCE_CAPACITY else configured }

  predicate Holds(c: Cache, s: Source, d: Diagnostic) { s in c.last && d in c.last[s] }

  function Without(order: seq<Source>, gone: set<Source>): seq<Source> {
    if order == [] then []
    else
      var n := |order| - 1;
      if order[n] in gone then Without(order[..n], gone) else Without(order[..n], gone) + [order[n]]
  }

  function Only(m: map<Source, Conditions>, order: seq<Source>): map<Source, Conditions> {
    map s | s in m && s in order :: m[s]
  }

  /** `state`: the source moves to the front; a new one first makes room by dropping the sources at the
      back. */
  function Touch(c: Cache, s: Source, capacity: nat): Cache
    requires capacity > 0
  {
    if s in c.last then Cache([s] + Without(c.order, {s}), c.last)
    else
      var room := if |c.order| >= capacity then c.order[..capacity - 1] else c.order;
      Cache([s] + room, Only(c.last, room)[s := map[]])
  }

  /** One condition that is not protected, and none such is older, is gone. */
  ghost predicate OldestGone(before: Conditions, protected: Diagnostic, after: Conditions) {
    exists d :: d in before && d != protected && after == before - {d}
                && forall x :: x in before && x != protected ==> before[d] <= before[x]
  }

  /** The table after an emission. */
  ghost predicate Emitted(before: Conditions, d: Diagnostic, now: int, after: Conditions) {
    var more := before[d := now];
    if |more| > CONDITION_LIMIT then OldestGone(more, d, after) else after == more
  }

  predicate ShouldEmit(m: Conditions, d: Diagnostic, now: int, interval: int) { d !in m || now - m[d] >= interval }

  datatype Event =
    | Report(source: Source, diagnostic: Diagnostic, now: int, emitted: bool)
    | Clear(source: Source, seen: set<Diagnostic>)
    | Delete(kind: string, namespace: string, name: string)

  datatype Limits = Limits(capacity: int, interval: int)

  ghost predicate ReportStep(l: Limits, c: Cache, e: Event, c': Cache)
    requires e.Report?
  {
    var t := Touch(c, e.source, Capacity(l.capacity));
    && e.source in t.last
    && e.emitted == ShouldEmit(t.last[e.source], e.diagnostic, e.now, l.interval)
    && c'.order == t.order && e.source in c'.last
    && c'.last == t.last[e.source := c'.last[e.source]]
    && (if e.emitted then Emitted(t.last[e.source], e.diagnostic, e.now, c'.last[e.source]) else c'.last == t.last)
  }

  function Seen(m: Conditions, seen: set<Diagnostic>): Conditions { map d | d in m && d in seen :: m[d] }

  /** `clearMissing`: conditions not seen go, and a source left without any goes. */
  function ClearCache(c: Cache, s: Source, seen: set<Diagnostic>): Cache {
    if s !in c.last then c
    else if Seen(c.last[s], seen) == map[] then Cache(Without(c.order, {s}), c.last - {s})
    else Cache([s] + Without(c.order, {s}), c.last[s := Seen(c.last[s], seen)])
  }

  predicate Names(e: Event, s: Source)
    requires e.Delete?
  {
    s.kind == e.kind && s.namespace == e.namespace && s.name == e.name
  }

  function Named(order: seq<Source>, e: Event): set<Source>
    requires e.Delete?
  {
    set s | s in order && Names(e, s)
  }

  /** `deleteSource`, whatever the UID. */
  function DeleteCache(c: Cache, e: Event): Cache
    requires e.Delete?
  {
    Cache(Without(c.order, Named(c.order, e)), map s | s in c.last && !Names(e, s) :: c.last[s])
  }

  ghost predicate Step(l: Limits, c: Cache, e: Event, c': Cache) {
    match e
    case Report(_, _, _, _) => ReportStep(l, c, e, c')
    case Clear(s, seen) => c' == ClearCache(c, s, seen)
    case Delete(_, _, _) => c' == DeleteCache(c, e)
  }

  /** The list and the map are in bijection, within capacity, and every source has between one and 128
      conditions. */
  ghost predicate Good(l: Limits, c: Cache) {
    && Distinct(c.order)
    && (forall s :: s in c.order <==> s in c.last)
    && |c.order| <= Capacity(l.capacity)
    && (forall s :: s in c.last ==> 1 <= |c.last[s]| <= CONDITION_LIMIT)
  }

  lemma {:induction false} WithoutMembers(order: seq<Source>, gone: set<Source>)
    requires Distinct(order)
    ensures Distinct(Without(order, gone)) && |Without(order, gone)| <= |order|
    ensures forall x :: x in Without(order, gone) <==> x in order && x !in gone
  {
    if order != [] {
      var n := |order| - 1;
      WithoutMembers(order[..n], gone);
      assert order == order[..n] + [order[n]];
      assert order[n] !in order[..n];
    }
  }

  lemma {:induction false} WithoutNone(order: seq<Source>, gone: set<Source>)
    requires forall s :: s in gone ==> s !in order
    ensures Without(order, gone) == order
  {
    if order != [] {
      var n := |order| - 1;
      WithoutNone(order[..n], gone);
      assert order[n] in order;
    }
  }

  lemma {:induction false} OneMember(order: seq<Source>, s: Source)
    requires Distinct(order) && s in order
    ensures |Without(order, {s})| == |order| - 1
  {
    var n := |order| - 1;
    if order[n] == s {
      WithoutNone(order[..n], {s});
    } else {
      assert s in order[..n];
      OneMember(order[..n], s);
    }
  }

  lemma TouchGood(l: Limits, c: Cache, s: Source)
    requires Good(l, c)
    ensures
      var t := Touch(c, s, Capacity(l.capacity));
      && Distinct(t.order) && (forall x :: x in t.order <==> x in t.last) && |t.order| <= Capacity(l.capacity)
      && s in t.last && (t.last[s] == if s in c.last then c.last[s] else map[])
      && (forall x :: x in t.last && x != s ==> x in c.last && t.last[x] == c.last[x])
  {
    WithoutMembers(c.order, {s});
    if s in c.last { OneMember(c.order, s); }
    hide Without;
  }

  lemma EmittedSize(before: Conditions, d: Diagnostic, now: int, after: Conditions)
    requires |before| <= CONDITION_LIMIT && Emitted(before, d, now, after)
    ensures 1 <= |after| <= CONDITION_LIMIT && d in after && after[d] == now
    ensures forall x :: x in after && x != d ==> x in before && after[x] == before[x]
  {
    var more := before[d := now];
    assert |more| <= |before| + 1 by { SizeOfUpdate(before, d, now); }
    assert d in more;
    if |more| > CONDITION_LIMIT {
      var x :| x in more && x != d && after == more - {x};
      assert after.Keys == more.Keys - {x};
      assert |after.Keys| == |more.Keys| - 1;
    }
    assert d in after.Keys;
    assert |after.Keys| >= 1;
  }

  lemma SizeOfUpdate(m: Conditions, d: Diagnostic, now: int)
    ensures |m[d := now]| <= |m| + 1
  {
    assert m[d := now].Keys == m.Keys + {d};
  }

  lemma ReportKeeps(l: Limits, c: Cache, e: Event, c': Cache)
    requires e.Report? && Good(l, c) && ReportStep(l, c, e, c')
    ensures Good(l, c')
  {
    var t := Touch(c, e.source, Capacity(l.capacity));
    TouchGood(l, c, e.source);
    hide Touch, Emitted, Distinct;
    var m := t.last[e.source];
    assert |m| <= CONDITION_LIMIT;
    if e.emitted {
      EmittedSize(m, e.diagnostic, e.now, c'.last[e.source]);
    } else {
      assert e.diagnostic in m.Keys;
      assert |m.Keys| >= 1;
    }
  }

  lemma SeenSize(m: Conditions, seen: set<Diagnostic>)
    ensures |Seen(m, seen)| <= |m| && (Seen(m, seen) != map[] ==> |Seen(m, seen)| >= 1)
  {
    assert Seen(m, seen).Keys <= m.Keys;
    SubsetSize(Seen(m, seen).Keys, m.Keys);
  }

  lemma FrontGood(l: Limits, c: Cache, s: Source, m: Conditions)
    requires Good(l, c) && s in c.last && 1 <= |m| <= CONDITION_LIMIT
    ensures Good(l, Cache([s] + Without(c.order, {s}), c.last[s := m]))
  {
    WithoutMembers(c.order, {s});
    OneMember(c.order, s);
    hide Without;
  }

  lemma GoneGood(l: Limits, c: Cache, s: Source)
    requires Good(l, c)
    ensures Good(l, Cache(Without(c.order, {s}), c.last - {s}))
  {
    WithoutMembers(c.order, {s});
    hide Without;
  }

  lemma ClearKeeps(l: Limits, c: Cache, s: Source, seen: set<Diagnostic>)
    requires Good(l, c)
    ensures Good(l, ClearCache(c, s, seen))
  {
    if s in c.last {
      assert |c.last[s]| <= CONDITION_LIMIT;
      hide Good, Without, Seen;
      var m := Seen(c.last[s], seen);
      SeenSize(c.last[s], seen);
      if m == map[] {
        GoneGood(l, c, s);
      } else {
        FrontGood(l, c, s, m);
      }
    }
  }

  /** CACHE INVARIANT: kept by every call. */
  lemma StepKeeps(l: Limits, c: Cache, e: Event, c': Cache)
    requires Good(l, c) && Step(l, c, e, c')
    ensures Good(l, c')
  {
    match e
    case Report(_, _, _, _) => ReportKeeps(l, c, e, c');
    case Clear(s, seen) => ClearKeeps(l, c, s, seen);
    case Delete(_, _, _) => WithoutMembers(c.order, Named(c.order, e));
  }

  /** The calls of one emitter, in the order they take its lock, and the caches between them. */
  ghost predicate Run(l: Limits, events: seq<Event>, caches: seq<Cache>) {
    && |caches| == |events| + 1 && caches[0] == Cache([], map[])
    && forall i :: 0 <= i < |events| ==> Step(l, caches[i], events[i], caches[i + 1])
  }

  lemma RunStep(l: Limits, events: seq<Event>, caches: seq<Cache>, i: nat)
    requires Run(l, events, caches) && i < |events|
    ensures |caches| == |events| + 1 && Step(l, caches[i], events[i], caches[i + 1])
  {
  }

  lemma {:induction false} AlwaysGood(l: Limits, events: seq<Event>, caches: seq<Cache>, n: nat)
    requires Run(l, events, caches) && n <= |events|
    ensures Good(l, caches[n])
  {
    if n > 0 {
      AlwaysGood(l, events, caches, n - 1);
      StepKeeps(l, caches[n - 1], events[n - 1], caches[n]);
    }
  }

  predicate Emits(e: Event, s: Source, d: Diagnostic) { e.Report? && e.source == s && e.diagnostic == d && e.emitted }

  /** What one call does to one recorded emission. */
  lemma StepRecord(l: Limits, c: Cache, e: Event, c': Cache, s: Source, d: Diagnostic)
    requires Good(l, c) && Step(l, c, e, c')
    ensures
      Emits(e, s, d) ==>
        && Holds(c', s, d) && c'.last[s][d] == e.now
        && (Holds(c, s, d) ==> e.now - c.last[s][d] >= l.interval)
    ensures !Emits(e, s, d) && Holds(c', s, d) ==> Holds(c, s, d) && c'.last[s][d] == c.last[s][d]
    ensures
      e.Report? && e.source == s && e.diagnostic == d && !e.emitted ==>
        Holds(c, s, d) && e.now - c.last[s][d] < l.interval
  {
    if e.Report? {
      var t := Touch(c, e.source, Capacity(l.capacity));
      TouchGood(l, c, e.source);
      hide Touch, Emitted, Distinct;
      if e.emitted {
        EmittedSize(t.last[e.source], e.diagnostic, e.now, c'.last[e.source]);
      }
    }
  }

  /** A record goes only by an eviction, a clear or a delete: never by a report of that same diagnostic. */
  ghost predicate Removed(c: Cache, c': Cache, s: Source, d: Diagnostic) { Holds(c, s, d) && !Holds(c', s, d) }

  ghost predicate RemovedBetween(caches: seq<Cache>, i: nat, j: nat, s: Source, d: Diagnostic)
    requires i <= j < |caches|
  {
    exists m :: i <= m < j && Removed(caches[m], caches[m + 1], s, d)
  }

  /** From an emission on, until the record is removed, the recorded time is not before it. */
  lemma {:induction false} RecordGrows(l: Limits, events: seq<Event>, caches: seq<Cache>, i: nat, j: nat, s: Source,
                                       d: Diagnostic)
    requires Run(l, events, caches) && i < j <= |events| && Emits(events[i], s, d) && l.interval >= 0
    requires !RemovedBetween(caches, i + 1, j, s, d)
    ensures Holds(caches[j], s, d) && caches[j].last[s][d] >= events[i].now
  {
    hide Step, Good;
    var k := j - 1;
    AlwaysGood(l, events, caches, k);
    if k > i {
      assert !RemovedBetween(caches, i + 1, k, s, d);
      RecordGrows(l, events, caches, i, k, s, d);
      assert !Removed(caches[k], caches[k + 1], s, d);
    }
    StepRecord(l, caches[k], events[k], caches[j], s, d);
  }

  /** RATE LIMIT. Two emissions of one diagnostic of one source closer than the interval have a removal of
      its record between them. Nothing is assumed of the clock readings. */
  lemma RateLimit(l: Limits, events: seq<Event>, caches: seq<Cache>, i: nat, j: nat, s: Source, d: Diagnostic)
    requires Run(l, events, caches) && i < j < |events| && Emits(events[i], s, d) && Emits(events[j], s, d)
    requires l.interval >= 0 && events[j].now - events[i].now < l.interval
    ensures RemovedBetween(caches, i + 1, j, s, d)
  {
    hide Step, Good;
    AlwaysGood(l, events, caches, j);
    StepRecord(l, caches[j], events[j], caches[j + 1], s, d);
    if !RemovedBetween(caches, i + 1, j, s, d) {
      RecordGrows(l, events, caches, i, j, s, d);
      assert false;
    }
  }

  /** Every recorded time is that of an emission. */
  lemma {:induction false} Recorded(l: Limits, events: seq<Event>, caches: seq<Cache>, n: nat, s: Source,
                                    d: Diagnostic) returns (i: nat)
    requires Run(l, events, caches) && n <= |events| && Holds(caches[n], s, d)
    ensures i < n && Emits(events[i], s, d) && events[i].now == caches[n].last[s][d]
  {
    hide Step, Good;
    i := n - 1;
    AlwaysGood(l, events, caches, i);
    StepRecord(l, caches[i], events[i], caches[n], s, d);
    if !Emits(events[i], s, d) {
      i := Recorded(l, events, caches, i, s, d);
    }
  }

  /** NOTHING IS HIDDEN. At every report the diagnostic is emitted now, or was by an earlier call less than
      one interval before. */
  lemma NeverHidden(l: Limits, events: seq<Event>, caches: seq<Cache>, j: nat) returns (i: nat)
    requires Run(l, events, caches) && j < |events| && events[j].Report?
    ensures i <= j && Emits(events[i], events[j].source, events[j].diagnostic)
    ensures i == j || events[j].now - events[i].now < l.interval
  {
    hide Step, Good;
    var e := events[j];
    i := j;
    AlwaysGood(l, events, caches, j);
    StepRecord(l, caches[j], e, caches[j + 1], e.source, e.diagnostic);
    if !e.emitted {
      i := Recorded(l, events, caches, j, e.source, e.diagnostic);
    }
  }

  /** Which calls can remove a record, and whose: the least recently touched source when the cache is full,
      an oldest condition other than the reported one when its table is, what a clear did not see, or the
      deleted source. */
  ghost predicate Reason(l: Limits, c: Cache, e: Event, s: Source, d: Diagnostic)
    requires Holds(c, s, d)
  {
    match e
    case Report(source, diagnostic, _, _) =>
      || (source != s && source !in c.last && |c.order| == Capacity(l.capacity) && s == c.order[|c.order| - 1])
      || (source == s && diagnostic != d && |c.last[s]| == CONDITION_LIMIT
          && forall x :: x in c.last[s] && x != diagnostic ==> c.last[s][d] <= c.last[s][x])
    case Clear(source, seen) => source == s && d !in seen
    case Delete(_, _, _) => Names(e, s)
  }

  lemma SeenKeeps(m: Conditions, seen: set<Diagnostic>, d: Diagnostic)
    ensures d in Seen(m, seen) <==> d in m && d in seen
    ensures d in m && d in seen ==> Seen(m, seen) != map[]
  {
    assert d in m && d in seen ==> d in Seen(m, seen);
  }

  lemma RemovalReason(l: Limits, c: Cache, e: Event, c': Cache, s: Source, d: Diagnostic)
    requires Good(l, c) && Step(l, c, e, c') && Removed(c, c', s, d)
    ensures Reason(l, c, e, s, d)
  {
    if e.Report? {
      if e.source == s {
        ConditionEvicted(l, c, e, c', d);
      } else {
        SourceEvicted(l, c, e, c', s, d);
      }
    } else if e.Clear? && e.source == s {
      SeenKeeps(c.last[s], e.seen, d);
    }
  }

  /** A clear of the source that does not see the diagnostic, or a delete of the source whatever its UID. */
  predicate Forgets(e: Event, s: Source, d: Diagnostic) {
    match e
    case Report(_, _, _, _) => false
    case Clear(source, seen) => source == s && d !in seen
    case Delete(kind, namespace, name) => s.kind == kind && s.namespace == namespace && s.name == name
  }

  lemma StepForgets(l: Limits, c: Cache, e: Event, c': Cache, s: Source, d: Diagnostic)
    requires Step(l, c, e, c') && Forgets(e, s, d)
    ensures !Holds(c', s, d)
  {
    hide Without;
  }

  lemma {:induction false} StaysForgotten(l: Limits, events: seq<Event>, caches: seq<Cache>, i: nat, j: nat, s: Source,
                                          d: Diagnostic)
    requires Run(l, events, caches) && i < j <= |events| && Forgets(events[i], s, d)
    requires forall m :: i < m < j ==> !Emits(events[m], s, d)
    ensures !Holds(caches[j], s, d)
  {
    hide Step, Good;
    var k := j - 1;
    if k == i {
      StepForgets(l, caches[i], events[i], caches[j], s, d);
    } else {
      StaysForgotten(l, events, caches, i, k, s, d);
      AlwaysGood(l, events, caches, k);
      StepRecord(l, caches[k], events[k], caches[j], s, d);
    }
  }

  /** WHAT WAS CLEARED IS SAID AGAIN. After a clear that did not see a diagnostic, or a delete of its source,
      the next report of it is emitted, however soon it comes. */
  lemma ClearedEmits(l: Limits, events: seq<Event>, caches: seq<Cache>, i: nat, j: nat, s: Source, d: Diagnostic)
    requires Run(l, events, caches) && i < j < |events| && Forgets(events[i], s, d)
    requires events[j].Report? && events[j].source == s && events[j].diagnostic == d
    requires forall m :: i < m < j ==> !Emits(events[m], s, d)
    ensures !Holds(caches[i + 1], s, d) && events[j].emitted
  {
    hide Step, Good;
    StepForgets(l, caches[i], events[i], caches[i + 1], s, d);
    StaysForgotten(l, events, caches, i, j, s, d);
    AlwaysGood(l, events, caches, j);
    StepRecord(l, caches[j], events[j], caches[j + 1], s, d);
  }

  lemma ConditionEvicted(l: Limits, c: Cache, e: Event, c': Cache, d: Diagnostic)
    requires e.Report? && Good(l, c) && ReportStep(l, c, e, c') && Removed(c, c', e.source, d)
    ensures e.diagnostic != d && |c.last[e.source]| == CONDITION_LIMIT
    ensures forall x :: x in c.last[e.source] && x != e.diagnostic ==> c.last[e.source][d] <= c.last[e.source][x]
  {
    TouchGood(l, c, e.source);
    hide Touch, Distinct;
    var m := c.last[e.source];
    var more := m[e.diagnostic := e.now];
    SizeOfUpdate(m, e.diagnostic, e.now);
    assert e.diagnostic in m ==> more.Keys == m.Keys;
    var x :| x in more && x != e.diagnostic && c'.last[e.source] == more - {x}
             && forall y :: y in more && y != e.diagnostic ==> more[x] <= more[y];
    assert d == x;
    forall y | y in m && y != e.diagnostic ensures m[d] <= m[y] {
      assert more[y] == m[y] && more[d] == m[d];
    }
  }

  lemma TouchDrops(l: Limits, c: Cache, source: Source, s: Source)
    requires Good(l, c) && s in c.last && s !in Touch(c, source, Capacity(l.capacity)).last
    ensures source !in c.last && |c.order| == Capacity(l.capacity) && s == c.order[|c.order| - 1]
  {
    hide Without;
    var n := |c.order| - 1;
    assert s in c.order;
    assert c.order == c.order[..n] + [c.order[n]];
  }

  lemma SourceEvicted(l: Limits, c: Cache, e: Event, c': Cache, s: Source, d: Diagnostic)
    requires e.Report? && Good(l, c) && ReportStep(l, c, e, c') && e.source != s && Removed(c, c', s, d)
    ensures e.source !in c.last && |c.order| == Capacity(l.capacity) && s == c.order[|c.order| - 1]
  {
    TouchGood(l, c, e.source);
    hide Touch, Emitted, Good, Distinct;
    var t := Touch(c, e.source, Capacity(l.capacity));
    assert s !in t.last;
    TouchDrops(l, c, e.source, s);
  }

  predicate Touches(e: Event, s: Source) { (e.Report? || e.Clear?) && e.source == s }

  /** The last call before the n-th that touched a source, or -1. */
  function LastTouch(events: seq<Event>, n: nat, s: Source): int
    requires n <= |events|
  {
    if n == 0 then -1 else if Touches(events[n - 1], s) then n - 1 else LastTouch(events, n - 1, s)
  }

  lemma {:induction false} TouchedBefore(events: seq<Event>, n: nat, s: Source)
    requires n <= |events|
    ensures -1 <= LastTouch(events, n, s) < n
  {
    if n > 0 && !Touches(events[n - 1], s) { TouchedBefore(events, n - 1, s); }
  }

  ghost predicate Recent(events: seq<Event>, n: nat, order: seq<Source>)
    requires n <= |events|
  {
    forall i, j :: 0 <= i < j < |order| ==> LastTouch(events, n, order[i]) > LastTouch(events, n, order[j])
  }

  /** `sub` lists some of `order`, in the same order. */
  ghost predicate Sub(sub: seq<Source>, order: seq<Source>) {
    forall i, j :: 0 <= i < j < |sub| ==> Precedes(order, sub[i], sub[j])
  }

  ghost predicate Precedes(order: seq<Source>, x: Source, y: Source) {
    exists i, j :: 0 <= i < j < |order| && order[i] == x && order[j] == y
  }

  lemma {:induction false} WithoutSub(order: seq<Source>, gone: set<Source>)
    requires Distinct(order)
    ensures Sub(Without(order, gone), order)
  {
    if order != [] {
      var n := |order| - 1;
      var rest, r := Without(order[..n], gone), Without(order, gone);
      WithoutSub(order[..n], gone);
      WithoutMembers(order[..n], gone);
      SubSnoc(rest, r, order);
    }
  }

  lemma SubSnoc(rest: seq<Source>, r: seq<Source>, order: seq<Source>)
    requires order != [] && Sub(rest, order[..|order| - 1]) && forall x :: x in rest ==> x in order[..|order| - 1]
    requires r == rest || r == rest + [order[|order| - 1]]
    ensures Sub(r, order)
  {
    var n := |order| - 1;
    forall i, j | 0 <= i < j < |r| ensures Precedes(order, r[i], r[j]) {
      if j < |rest| {
        assert Precedes(order[..n], rest[i], rest[j]);
        var p, q :| 0 <= p < q < n && order[..n][p] == rest[i] && order[..n][q] == rest[j];
        assert order[p] == r[i] && order[q] == r[j];
      } else {
        assert rest[i] in rest;
        var p :| 0 <= p < n && order[p] == rest[i];
        assert order[n] == r[j];
      }
    }
  }

  /** A sub-listing of a recent order stays recent when none of it is touched. */
  lemma SubRecent(events: seq<Event>, n: nat, order: seq<Source>, sub: seq<Source>)
    requires n < |events| && Recent(events, n, order) && Sub(sub, order)
    requires forall x :: x in sub ==> !Touches(events[n], x)
    ensures Recent(events, n + 1, sub)
  {
    forall i, j | 0 <= i < j < |sub| ensures LastTouch(events, n + 1, sub[i]) > LastTouch(events, n + 1, sub[j]) {
      assert Precedes(order, sub[i], sub[j]);
      assert sub[i] in sub && sub[j] in sub;
    }
  }

  lemma FrontRecent(events: seq<Event>, n: nat, s: Source, rest: seq<Source>)
    requires n < |events| && Recent(events, n + 1, rest) && Touches(events[n], s) && s !in rest
    ensures Recent(events, n + 1, [s] + rest)
  {
    var order := [s] + rest;
    forall i, j | 0 <= i < j < |order| ensures LastTouch(events, n + 1, order[i]) > LastTouch(events, n + 1, order[j]) {
      assert order[j] == rest[j - 1] && rest[j - 1] in rest;
      TouchedBefore(events, n, order[j]);
      assert i > 0 ==> order[i] == rest[i - 1];
    }
  }

  lemma PrefixSub(order: seq<Source>, k: nat)
    requires k <= |order|
    ensures Sub(order[..k], order)
  {
    forall i, j | 0 <= i < j < k ensures Precedes(order, order[..k][i], order[..k][j]) {
      assert order[i] == order[..k][i] && order[j] == order[..k][j];
    }
  }

  /** RECENCY. In every run the list is ordered by the last touch, most recent first; so the source that
      makes room is the least recently touched one. */
  lemma {:induction false} AlwaysRecent(l: Limits, events: seq<Event>, caches: seq<Cache>, n: nat)
    requires Run(l, events, caches) && n <= |events|
    ensures Recent(events, n, caches[n].order)
  {
    hide Step, Good, LastTouch;
    if n == 0 {
      assert caches[n].order == [];
    } else {
      hide Recent, Run;
      RunStep(l, events, caches, n - 1);
      AlwaysRecent(l, events, caches, n - 1);
      AlwaysGood(l, events, caches, n - 1);
      StepRecent(l, events, n - 1, caches[n - 1], caches[n]);
    }
  }

  lemma StepRecent(l: Limits, events: seq<Event>, n: nat, c: Cache, c': Cache)
    requires n < |events| && Good(l, c) && Step(l, c, events[n], c') && Recent(events, n, c.order)
    ensures Recent(events, n + 1, c'.order)
  {
    var e := events[n];
    hide Recent, Sub;
    if e.Delete? {
      WithoutSub(c.order, Named(c.order, e));
      SubRecent(events, n, c.order, c'.order);
    } else {
      var s := e.source;
      if s in c.last {
        WithoutSub(c.order, {s});
        WithoutMembers(c.order, {s});
        SubRecent(events, n, c.order, Without(c.order, {s}));
        FrontRecent(events, n, s, Without(c.order, {s}));
      } else {
        var k := if |c.order| >= Capacity(l.capacity) then Capacity(l.capacity) - 1 else |c.order|;
        PrefixSub(c.order, k);
        assert c.order[..|c.order|] == c.order;
        SubRecent(events, n, c.order, c.order[..k]);
        FrontRecent(events, n, s, c.order[..k]);
        PrefixSub(c.order, |c.order|);
        SubRecent(events, n, c.order, c.order);
      }
    }
  }
}
