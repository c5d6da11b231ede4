/** `combineRecords`: desired records, joined by the retiring targets. */
module Combine {
  import opened Ordering
  import opened Endpoints
  import opened Lifecycle
  import opened Objects
  import opened WriterSpec
  import opened WriterLaws
  import opened Records

  /** Whose attributes a combined record carries: the desired record's, else the stored one's. */
  function PickAttr(desired: map<RecordId, Attr>, current: map<RecordId, Attr>, id: RecordId): Attr {
    if id in desired then desired[id] else if id in current then current[id] else Attr(0, [])
  }

  function CombinedAttrs(desired: map<RecordId, Attr>, current: map<RecordId, Attr>,
                         keys: set<TargetKey>): map<RecordId, Attr> {
    map id | id in Ids(keys) :: PickAttr(desired, current, id)
  }

  /** The targets under each record id, the last record listed winning. */
  function LastKeys(eps: seq<Endpoint>): set<TargetKey> {
    if eps == [] then {}
    else
      var e := eps[|eps| - 1];
      (set k | k in LastKeys(eps[..|eps| - 1]) && k.id != e.id) + EndpointKeys(e)
  }

  lemma {:induction false} LastKeysDistinct(eps: seq<Endpoint>)
    requires DistinctIds(eps)
    ensures LastKeys(eps) == KeysOf(eps)
  {
    if eps != [] {
      var n := |eps| - 1;
      LastKeysDistinct(eps[..n]);
      forall k | k in KeysOf(eps[..n]) ensures k.id != eps[n].id {
        KeysOfHas(eps[..n], k);
      }
      hide KeysOf;
      assert KeysOf(eps) == KeysOf(eps[..n]) + EndpointKeys(eps[n]) by { KeysOfLast(eps); }
    }
  }

  lemma KeysOfLast(eps: seq<Endpoint>)
    requires eps != []
    ensures KeysOf(eps) == KeysOf(eps[..|eps| - 1]) + EndpointKeys(eps[|eps| - 1])
  {
  }

  method DesiredByRecord(desired: seq<Endpoint>) returns (m: ByRecord)
    ensures KeyedById(m) && AttrsIn(m) == AttrsOf(desired)
    ensures forall k :: k in LastKeys(desired) <==> HoldsKey(m, k)
  {
    m := map[];
    for i := 0 to |desired|
      invariant KeyedById(m) && AttrsIn(m) == AttrsOf(desired[..i])
      invariant forall k :: k in LastKeys(desired[..i]) <==> HoldsKey(m, k)
    {
      var e := desired[i];
      assert desired[..i + 1][..i] == desired[..i];
      m := m[e.id := e];
      forall k ensures k in LastKeys(desired[..i + 1]) <==> HoldsKey(m, k) {
        assert k in EndpointKeys(e) <==> k.id == e.id && k.target in e.targets;
      }
    }
    assert desired[..|desired|] == desired;
  }

  method CurrentByRecord(current: seq<Endpoint>) returns (m: ByRecord)
    ensures KeyedById(m) && AttrsIn(m) == AttrsOf(current)
  {
    m := map[];
    for i := 0 to |current|
      invariant KeyedById(m) && AttrsIn(m) == AttrsOf(current[..i])
    {
      assert current[..i + 1][..i] == current[..i];
      m := m[current[i].id := current[i]];
    }
    assert current[..|current|] == current;
  }

  /** One retiring target joins its record, which is copied from the stored one when needed. */
  function Join(byRecord: ByRecord, current: ByRecord, k: TargetKey): ByRecord {
    var record :=
      if k.id in byRecord then byRecord[k.id]
      else if k.id in current then current[k.id].(targets := [])
      else Endpoint(k.id, [], Attr(0, []));
    byRecord[k.id := record.(targets := record.targets + [k.target])]
  }

  ghost predicate Joined(m: ByRecord, desired: map<RecordId, Attr>, current: map<RecordId, Attr>,
                         keys: set<TargetKey>) {
    && KeyedById(m)
    && (forall k :: k in keys <==> HoldsKey(m, k))
    && (forall id :: id in m ==> (id in desired || id in Ids(keys)) && m[id].attr == PickAttr(desired, current, id))
    && (forall id :: id in desired ==> id in m)
  }

  lemma StartJoined(m: ByRecord, current: map<RecordId, Attr>, keys: set<TargetKey>)
    requires KeyedById(m) && forall k :: k in keys <==> HoldsKey(m, k)
    ensures Joined(m, AttrsIn(m), current, keys)
  {
  }

  lemma JoinedKeyed(m: ByRecord, desired: map<RecordId, Attr>, current: map<RecordId, Attr>, keys: set<TargetKey>)
    requires Joined(m, desired, current, keys)
    ensures KeyedById(m)
  {
  }

  lemma JoinStep(m: ByRecord, stored: ByRecord, desired: map<RecordId, Attr>, keys: set<TargetKey>, k: TargetKey)
    requires KeyedById(stored) && Joined(m, desired, AttrsIn(stored), keys)
    ensures Joined(Join(m, stored, k), desired, AttrsIn(stored), keys + {k})
  {
    var n := Join(m, stored, k);
    forall j ensures j in keys + {k} <==> HoldsKey(n, j) {
      assert k == TargetKey(k.id, k.target) && j == TargetKey(j.id, j.target);
      assert k.id !in m ==> !HoldsKey(m, j) || j.id != k.id;
    }
    forall id | id in n
      ensures (id in desired || id in Ids(keys + {k})) && n[id].attr == PickAttr(desired, AttrsIn(stored), id)
    {
      if id != k.id { assert id in Ids(keys) ==> id in Ids(keys + {k}); }
      else { assert k in keys + {k}; }
    }
  }

  /** The loop over the pending map, in any order. */
  method JoinPending(start: ByRecord, current: ByRecord, ghost desired: map<RecordId, Attr>, ghost keys: set<TargetKey>,
                     pending: set<TargetKey>) returns (byRecord: ByRecord)
    requires KeyedById(current) && Joined(start, desired, AttrsIn(current), keys)
    ensures Joined(byRecord, desired, AttrsIn(current), keys + pending)
  {
    hide Joined, Join;
    byRecord := start;
    var rest := pending;
    assert keys + (pending - rest) == keys;
    while rest != {}
      invariant rest <= pending
      invariant Joined(byRecord, desired, AttrsIn(current), keys + (pending - rest))
      decreases |rest|
    {
      var k :| k in rest;
      JoinStep(byRecord, current, desired, keys + (pending - rest), k);
      assert keys + (pending - rest) + {k} == keys + (pending - (rest - {k}));
      byRecord := Join(byRecord, current, k);
      rest := rest - {k};
    }
    assert pending - rest == pending;
  }

  /** Desired records first, then the retiring targets, then the filter and the sort. */
  method CombineRecords(desired: seq<Endpoint>, current: seq<Endpoint>, pending: map<TargetKey, PendingTarget>)
    returns (r: seq<Endpoint>)
    ensures
      var keys := LastKeys(desired) + pending.Keys;
      r == Layout(NormAttrs(CombinedAttrs(AttrsOf(desired), AttrsOf(current), keys)), keys)
  {
    hide Joined, LastKeys, AttrsOf, Layout, NormAttrs, CombinedAttrs, IsNormalising;
    var byRecord := DesiredByRecord(desired);
    var currentByRecord := CurrentByRecord(current);
    StartJoined(byRecord, AttrsIn(currentByRecord), LastKeys(desired));
    byRecord := JoinPending(byRecord, currentByRecord, AttrsOf(desired), LastKeys(desired), pending.Keys);
    ghost var keys := LastKeys(desired) + pending.Keys;
    JoinedKeyed(byRecord, AttrsOf(desired), AttrsOf(current), keys);
    var listed := ListValues(byRecord);
    var kept := DropEmpty(byRecord, listed);
    KeptViews(byRecord, kept, AttrsOf(desired), AttrsOf(current), keys);
    r := NormalizeEndpoints(kept);
  }

  /** Records left without targets are not written. */
  method DropEmpty(ghost byRecord: ByRecord, listed: seq<Endpoint>) returns (kept: seq<Endpoint>)
    requires KeyedById(byRecord) && DistinctIds(listed)
    requires forall e :: e in listed <==> e.id in byRecord && e == byRecord[e.id]
    ensures DistinctIds(kept)
    ensures forall e :: e in kept <==> e.id in byRecord && e == byRecord[e.id] && e.targets != []
  {
    kept := [];
    for i := 0 to |listed|
      invariant DistinctIds(kept)
      invariant forall e :: e in kept <==> e in listed[..i] && e.targets != []
    {
      assert listed[..i + 1] == listed[..i] + [listed[i]];
      if |listed[i].targets| > 0 {
        assert forall e :: e in kept ==> e.id != listed[i].id;
        kept := kept + [listed[i]];
      }
    }
    assert listed[..|listed|] == listed;
  }

  lemma KeptViews(m: ByRecord, kept: seq<Endpoint>, desired: map<RecordId, Attr>, current: map<RecordId, Attr>,
                  keys: set<TargetKey>)
    requires Joined(m, desired, current, keys) && DistinctIds(kept)
    requires forall e :: e in kept <==> e.id in m && e == m[e.id] && e.targets != []
    ensures KeysOf(kept) == keys && AttrsOf(kept) == CombinedAttrs(desired, current, keys)
  {
    hide KeysOf, AttrsOf;
    var full := map id | id in m && m[id].targets != [] :: m[id];
    forall k ensures k in keys <==> HoldsKey(full, k) {
      assert HoldsKey(m, k) ==> m[k.id].targets != [];
    }
    ListedViews(full, kept, keys);
    FullIds(m, full, desired, current, keys);
    hide Joined, Ids, HoldsKey;
    assert AttrsIn(full) == CombinedAttrs(desired, current, keys);
  }

  lemma FullIds(m: ByRecord, full: ByRecord, desired: map<RecordId, Attr>, current: map<RecordId, Attr>,
                keys: set<TargetKey>)
    requires Joined(m, desired, current, keys)
    requires full == map id | id in m && m[id].targets != [] :: m[id]
    ensures full.Keys == Ids(keys)
    ensures forall id :: id in full ==> full[id].attr == PickAttr(desired, current, id)
  {
    forall id | id in full ensures id in Ids(keys) {
      var k := TargetKey(id, m[id].targets[0]);
      assert HoldsKey(m, k);
      assert k in keys;
    }
    forall id | id in Ids(keys) ensures id in full {
      var k :| k in keys && k.id == id;
      assert HoldsKey(m, k);
    }
  }
}
