/** The persisted pending list. JSON and RFC 3339 text are kept as the values they decode to; what
    the decoder rejects is kept as a case of its own, so every structural check remains.
 */
module Lifecycle {
  import opened Ordering
  import opened Endpoints

  datatype Option<+T> = None | Some(value: T)

  /** A deadline text: a canonical UTC RFC3339Nano instant in nanoseconds, or anything else. */
  datatype Stamp = Instant(at: int) | NotCanonical

  datatype PendingTarget = PendingTarget(key: TargetKey, deadline: Stamp)

  /** The lifecycle annotation: missing, not one JSON value of the right shape, or a document. */
  datatype LifecycleText = Missing | NotJson | Document(version: int, pending: seq<PendingTarget>)

  const LIFECYCLE_VERSION := 1

  /** `deadline` ignores the parse error, leaving the zero time. */
  function Deadline(value: PendingTarget): int {
    if value.deadline.Instant? then value.deadline.at else 0
  }

  predicate FilledKey(k: TargetKey) {
    k.id.dnsName != "" && k.id.recordType != "" && k.target != ""
  }

  ghost predicate DistinctKeys(pending: seq<PendingTarget>) {
    forall i, j :: 0 <= i < j < |pending| ==> pending[i].key != pending[j].key
  }

  predicate GoodEntry(p: PendingTarget) { FilledKey(p.key) && p.deadline.Instant? }

  /** What `parseLifecycle` accepts. */
  ghost predicate ValidText(text: LifecycleText) {
    && text.Document? && text.version == LIFECYCLE_VERSION
    && DistinctKeys(text.pending)
    && forall p :: p in text.pending ==> GoodEntry(p)
  }

  /** The pending list as deadlines by target. */
  function PendingMap(pending: seq<PendingTarget>): map<TargetKey, int> {
    if pending == [] then map[]
    else PendingMap(pending[..|pending| - 1])[pending[|pending| - 1].key := Deadline(pending[|pending| - 1])]
  }

  ghost predicate HasPending(pending: seq<PendingTarget>, k: TargetKey) {
    exists p :: p in pending && p.key == k
  }

  lemma {:induction false} PendingMapHas(pending: seq<PendingTarget>, k: TargetKey)
    ensures k in PendingMap(pending) <==> HasPending(pending, k)
  {
    if pending != [] {
      var n := |pending| - 1;
      PendingMapHas(pending[..n], k);
      assert pending == pending[..n] + [pending[n]];
      if HasPending(pending[..n], k) {
        var p :| p in pending[..n] && p.key == k;
        assert p in pending;
      }
      if pending[n].key == k { assert pending[n] in pending; }
    }
  }

  lemma {:induction false} PendingMapAt(pending: seq<PendingTarget>, p: PendingTarget)
    requires DistinctKeys(pending) && p in pending
    ensures p.key in PendingMap(pending) && PendingMap(pending)[p.key] == Deadline(p)
  {
    var n := |pending| - 1;
    if p != pending[n] {
      assert p in pending[..n];
      PendingMapAt(pending[..n], p);
    }
  }

  lemma PendingMapIs(pending: seq<PendingTarget>, m: map<TargetKey, int>)
    requires DistinctKeys(pending)
    requires forall p :: p in pending ==> p.key in m && m[p.key] == Deadline(p)
    requires forall k :: k in m ==> HasPending(pending, k)
    ensures PendingMap(pending) == m
  {
    forall k | k in m ensures k in PendingMap(pending) && PendingMap(pending)[k] == m[k] {
      var p :| p in pending && p.key == k;
      PendingMapAt(pending, p);
    }
    forall k | k in PendingMap(pending) ensures k in m {
      PendingMapHas(pending, k);
      var p :| p in pending && p.key == k;
    }
  }

  predicate PendingLess(a: PendingTarget, b: PendingTarget) { KeyLess(a.key, b.key) }

  lemma PendingOrder()
    ensures StrictWeak(PendingLess)
  {
    Orders();
    TotalIsWeak(KeyLess);
    forall x: PendingTarget, y: PendingTarget | PendingLess(x, y) ensures !PendingLess(y, x) {
      assert KeyLess(x.key, y.key);
    }
    forall x: PendingTarget, y: PendingTarget, z: PendingTarget | !PendingLess(x, y) && !PendingLess(y, z)
      ensures !PendingLess(x, z)
    {
      assert !KeyLess(x.key, y.key) && !KeyLess(y.key, z.key);
    }
  }

  function KeysIn(pending: seq<PendingTarget>): (r: seq<TargetKey>)
    ensures |r| == |pending| && forall i :: 0 <= i < |r| ==> r[i] == pending[i].key
  {
    seq(|pending|, i requires 0 <= i < |pending| => pending[i].key)
  }

  /** The one sorted list of a deadline map: the value `marshalLifecycle` writes. */
  ghost function Listing(m: map<TargetKey, int>): seq<PendingTarget> {
    Orders();
    var keys := SortSet(KeyLess, m.Keys);
    seq(|keys|, i requires 0 <= i < |keys| => Entry(m, keys[i]))
  }

  function Entry(m: map<TargetKey, int>, k: TargetKey): PendingTarget {
    PendingTarget(k, if k in m then Instant(m[k]) else NotCanonical)
  }

  lemma ListingMembers(m: map<TargetKey, int>)
    ensures StrictlySorted(KeyLess, KeysIn(Listing(m)))
    ensures forall p :: p in Listing(m) ==> p.key in m && p == Entry(m, p.key)
    ensures forall k :: k in m ==> Entry(m, k) in Listing(m)
    ensures |Listing(m)| == |m|
  {
    var keys := assert StrictTotal(KeyLess) by { Orders(); } SortSet(KeyLess, m.Keys);
    assert StrictlySorted(KeyLess, keys) && (forall k :: k in keys <==> k in m) && |keys| == |m| by {
      SortSetSorts(KeyLess, m.Keys);
    }
    var r := Listing(m);
    assert KeysIn(r) == keys;
    forall p | p in r ensures p.key in m && p == Entry(m, p.key) {
      var i :| 0 <= i < |r| && r[i] == p;
      assert keys[i] in keys;
    }
    forall k | k in m ensures Entry(m, k) in r {
      assert k in keys;
      var i :| 0 <= i < |keys| && keys[i] == k;
      assert r[i] == Entry(m, k);
    }
  }

  lemma SortedKeysDistinct(pending: seq<PendingTarget>)
    requires StrictlySorted(KeyLess, KeysIn(pending))
    ensures DistinctKeys(pending)
  {
    Orders();
    forall i, j | 0 <= i < j < |pending| ensures pending[i].key != pending[j].key {
      assert KeyLess(KeysIn(pending)[i], KeysIn(pending)[j]);
    }
  }

  ghost function Marshal(m: map<TargetKey, int>): LifecycleText {
    Document(LIFECYCLE_VERSION, Listing(m))
  }

  /** Parsing what was marshalled gives the same deadlines back. */
  lemma MarshalRoundTrip(m: map<TargetKey, int>)
    requires forall k :: k in m ==> FilledKey(k)
    ensures ValidText(Marshal(m))
    ensures PendingMap(Marshal(m).pending) == m
  {
    var r := Listing(m);
    ListingMembers(m);
    SortedKeysDistinct(r);
    forall k | k in m ensures HasPending(r, k) {
      assert Entry(m, k) in r;
    }
    PendingMapIs(r, m);
  }

  /** A sorted list of readable deadlines is the listing of its own map. */
  lemma ListingUnique(pending: seq<PendingTarget>)
    requires StrictlySorted(KeyLess, KeysIn(pending))
    requires forall p :: p in pending ==> p.deadline.Instant?
    ensures pending == Listing(PendingMap(pending))
  {
    SortedKeysDistinct(pending);
    var m := PendingMap(pending);
    forall p | p in pending ensures p.key in m && m[p.key] == Deadline(p) {
      PendingMapAt(pending, p);
    }
    forall k | k in m ensures HasPending(pending, k) {
      PendingMapHas(pending, k);
    }
    ListingMembers(m);
    SameByKeys(pending, Listing(m), m);
  }

  lemma SameByKeys(a: seq<PendingTarget>, b: seq<PendingTarget>, m: map<TargetKey, int>)
    requires StrictlySorted(KeyLess, KeysIn(a)) && StrictlySorted(KeyLess, KeysIn(b))
    requires forall p :: p in a ==> p.key in m && p == Entry(m, p.key)
    requires forall p :: p in b ==> p.key in m && p == Entry(m, p.key)
    requires forall k :: k in m ==> HasPending(a, k)
    requires forall k :: k in m ==> Entry(m, k) in b
    ensures a == b
  {
    var x, y := KeysIn(a), KeysIn(b);
    forall k ensures k in x <==> k in y {
      if k in x {
        var i :| 0 <= i < |x| && x[i] == k;
        assert a[i] in a && a[i] in b;
        var j :| 0 <= j < |b| && b[j] == a[i];
        assert y[j] == k;
      }
      if k in y {
        var i :| 0 <= i < |y| && y[i] == k;
        assert b[i] in b && k in m;
        var p :| p in a && p.key == k;
        var j :| 0 <= j < |a| && a[j] == p;
        assert x[j] == k;
      }
    }
    assert x == y by { Orders(); SortedUnique(KeyLess, x, y); }
    forall i | 0 <= i < |a| ensures a[i] == b[i] {
      assert x[i] == y[i] && a[i] in a && b[i] in b;
    }
  }

  /** Entries that can be listed by target: no target twice, every deadline canonical. */
  ghost predicate Listable(pending: seq<PendingTarget>) {
    DistinctKeys(pending) && forall p :: p in pending ==> p.deadline.Instant?
  }

  /** `sortPending`: ties between entries of one target stay open; without them the result is one list. */
  method SortPending(pending: seq<PendingTarget>) returns (r: seq<PendingTarget>)
    ensures Sorted(PendingLess, r) && multiset(r) == multiset(pending)
    ensures Listable(pending) ==> r == Listing(PendingMap(pending))
  {
    PendingOrder();
    r := Sort(PendingLess, pending);
    if Listable(pending) {
      SortedIsListing(pending, r);
    }
  }

  lemma SortedIsListing(pending: seq<PendingTarget>, r: seq<PendingTarget>)
    requires Listable(pending) && Sorted(PendingLess, r) && multiset(r) == multiset(pending)
    ensures r == Listing(PendingMap(pending))
  {
    SameElements(r, pending);
    SortedPending(pending, r);
    ListingUnique(r);
    forall p | p in r ensures p.key in PendingMap(pending) && PendingMap(pending)[p.key] == Deadline(p) {
      PendingMapAt(pending, p);
    }
    forall k | k in PendingMap(pending) ensures HasPending(r, k) {
      PendingMapHas(pending, k);
      var p :| p in pending && p.key == k;
      assert p in r;
    }
    PendingMapIs(r, PendingMap(pending));
  }

  lemma SortedPending(pending: seq<PendingTarget>, r: seq<PendingTarget>)
    requires DistinctKeys(pending) && Sorted(PendingLess, r) && multiset(r) == multiset(pending)
    ensures StrictlySorted(KeyLess, KeysIn(r))
    ensures DistinctKeys(r)
  {
    PermutationDistinct((p: PendingTarget) => p.key, pending, r);
    var keys := KeysIn(r);
    forall i, j | 0 <= i < j < |r| ensures KeyLess(keys[i], keys[j]) {
      Orders();
      assert !PendingLess(r[j], r[i]);
    }
  }

  /** `parseLifecycle`: the first bad entry stops the loop; a good document comes back sorted. */
  method ParseLifecycle(text: LifecycleText) returns (r: Option<seq<PendingTarget>>)
    ensures r.Some? <==> ValidText(text)
    ensures r.Some? ==> r.value == Listing(PendingMap(text.pending))
  {
    if !text.Document? || text.version != LIFECYCLE_VERSION {
      return None;
    }
    var pending := text.pending;
    var seen: set<TargetKey> := {};
    for i := 0 to |pending|
      invariant DistinctKeys(pending[..i])
      invariant forall p :: p in pending[..i] ==> GoodEntry(p)
      invariant forall k :: k in seen <==> exists p :: p in pending[..i] && p.key == k
    {
      assert pending[i] in pending;
      if !FilledKey(pending[i].key) || !pending[i].deadline.Instant? {
        return None;
      }
      if pending[i].key in seen {
        var p :| p in pending[..i] && p.key == pending[i].key;
        assert !DistinctKeys(pending);
        return None;
      }
      assert forall p :: p in pending[..i] ==> p.key != pending[i].key;
      seen := seen + {pending[i].key};
      assert pending[..i + 1] == pending[..i] + [pending[i]];
    }
    assert pending[..|pending|] == pending;
    var sorted := SortPending(pending);
    return Some(sorted);
  }

  /** `marshalLifecycle`: the version is stamped and the list sorted. */
  method MarshalLifecycle(pending: seq<PendingTarget>) returns (text: LifecycleText)
    ensures text.Document? && text.version == LIFECYCLE_VERSION
    ensures Sorted(PendingLess, text.pending) && multiset(text.pending) == multiset(pending)
    ensures Listable(pending) ==> text == Marshal(PendingMap(pending))
  {
    var sorted := SortPending(pending);
    text := Document(LIFECYCLE_VERSION, sorted);
  }
}
