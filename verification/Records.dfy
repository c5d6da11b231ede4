/** The record bookkeeping of the writer, loop by loop: Go maps are walked in an arbitrary order and
    sorts are known only to sort, and still each method returns the one list its views determine.
 */
module Records {
  import opened Ordering
  import opened Endpoints
  import opened Lifecycle
  import opened Objects
  import opened Text
  import opened WriterSpec
  import opened WriterLaws

  /** `endpointTargets`. */
  method EndpointTargets(records: seq<Endpoint>) returns (r: set<TargetKey>)
    ensures r == KeysOf(records)
  {
    r := {};
    for i := 0 to |records|
      invariant r == KeysOf(records[..i])
    {
      var record := records[i];
      var before := r;
      for j := 0 to |record.targets|
        invariant r == before + EndpointKeys(Endpoint(record.id, record.targets[..j], record.attr))
      {
        assert record.targets[..j + 1] == record.targets[..j] + [record.targets[j]];
        r := r + {TargetKey(record.id, record.targets[j])};
      }
      assert record.targets[..|record.targets|] == record.targets;
      assert records[..i + 1][..i] == records[..i];
    }
    assert records[..|records|] == records;
  }

  ghost function NormOne(e: Endpoint): Endpoint {
    Orders();
    Endpoint(e.id, SortSet(StringLess, Elems(e.targets)), NormAttr(e.attr))
  }

  method NormalizeOne(e: Endpoint) returns (r: Endpoint)
    ensures r == NormOne(e)
  {
    var targets := SortedUniqueStrings(e.targets);
    assert StrictTotal(PropertyLess) && StrictWeak(PropertyLess) by { Orders(); TotalIsWeak(PropertyLess); }
    var properties := Sort(PropertyLess, e.attr.properties);
    SortSeqIs(PropertyLess, e.attr.properties, properties);
    r := Endpoint(e.id, targets, Attr(e.attr.ttl, properties));
  }

  ghost function NormAttrs(attrs: map<RecordId, Attr>): map<RecordId, Attr> {
    map id | id in attrs :: NormAttr(attrs[id])
  }

  lemma NormOneFacts(e: Endpoint)
    ensures StrictlySorted(StringLess, NormOne(e).targets) && Sorted(PropertyLess, NormOne(e).attr.properties)
    ensures forall t :: t in NormOne(e).targets <==> t in e.targets
  {
    NormAttrSorted(e.attr);
    var targets := NormOne(e).targets;
    assert StrictlySorted(StringLess, targets) && forall t :: t in targets <==> t in Elems(e.targets) by {
      Orders();
      SortSetSorts(StringLess, Elems(e.targets));
    }
  }

  /** What the final sort of `normalizeEndpoints` guarantees of its input. */
  ghost predicate IsNormalising(values: seq<Endpoint>, r: seq<Endpoint>) {
    && Sorted(EndpointLess, r)
    && (forall e :: e in values ==> NormOne(e) in r)
    && (forall f :: f in r ==> exists e :: e in values && f == NormOne(e))
    && (DistinctIds(values) ==> DistinctIds(r))
  }

  lemma NormalisingKeys(values: seq<Endpoint>, r: seq<Endpoint>)
    requires IsNormalising(values, r)
    ensures KeysOf(r) == KeysOf(values)
  {
    forall k ensures k in KeysOf(r) <==> k in KeysOf(values) {
      KeysOfHas(r, k);
      KeysOfHas(values, k);
      if HasKey(values, k) {
        var e :| e in values && e.id == k.id && k.target in e.targets;
        NormOneFacts(e);
        assert NormOne(e) in r;
      }
      if HasKey(r, k) {
        var f :| f in r && f.id == k.id && k.target in f.targets;
        var e :| e in values && f == NormOne(e);
        NormOneFacts(e);
      }
    }
  }

  lemma NormalisingDistinct(values: seq<Endpoint>, r: seq<Endpoint>)
    requires IsNormalising(values, r) && DistinctIds(values)
    ensures Normalised(r) && AttrsOf(r) == NormAttrs(AttrsOf(values))
  {
    var ids := IdsOf(r);
    forall i, j | 0 <= i < j < |ids| ensures IdLess(ids[i], ids[j]) {
      Orders();
      assert !EndpointLess(r[j], r[i]);
    }
    forall f | f in r
      ensures StrictlySorted(StringLess, f.targets) && Sorted(PropertyLess, f.attr.properties)
      ensures f.id in AttrsOf(values) && f.attr == NormAttr(AttrsOf(values)[f.id])
    {
      var e :| e in values && f == NormOne(e);
      NormOneFacts(e);
      AttrsOfAt(values, e);
    }
    forall id | id in NormAttrs(AttrsOf(values)) ensures HasId(r, id) {
      AttrsOfHas(values, id);
      var e :| e in values && e.id == id;
      assert NormOne(e) in r;
    }
    AttrsOfIs(r, NormAttrs(AttrsOf(values)));
  }

  lemma SortedNormalises(values: seq<Endpoint>, copies: seq<Endpoint>, r: seq<Endpoint>)
    requires |copies| == |values| && forall i :: 0 <= i < |values| ==> copies[i] == NormOne(values[i])
    requires Sorted(EndpointLess, r) && multiset(r) == multiset(copies)
    ensures IsNormalising(values, r)
  {
    SameElements(r, copies);
    forall e | e in values ensures NormOne(e) in r {
      var i :| 0 <= i < |values| && values[i] == e;
      assert copies[i] in copies;
    }
    forall f | f in r ensures exists e :: e in values && f == NormOne(e) {
      assert f in copies;
      var i :| 0 <= i < |copies| && copies[i] == f;
      assert values[i] in values;
    }
    if DistinctIds(values) {
      PermutationDistinct((e: Endpoint) => e.id, copies, r);
    }
  }

  /** `normalizeEndpoints`. With repeated record ids the sort leaves their order open; otherwise the
      result is one value. */
  method NormalizeEndpoints(values: seq<Endpoint>) returns (r: seq<Endpoint>)
    ensures IsNormalising(values, r) && KeysOf(r) == KeysOf(values)
    ensures DistinctIds(values) ==> r == Layout(NormAttrs(AttrsOf(values)), KeysOf(values))
  {
    var copies: seq<Endpoint> := [];
    for i := 0 to |values|
      invariant |copies| == i && forall j :: 0 <= j < i ==> copies[j] == NormOne(values[j])
    {
      var copy := NormalizeOne(values[i]);
      copies := copies + [copy];
    }
    EndpointOrder();
    r := Sort(EndpointLess, copies);
    SortedNormalises(values, copies, r);
    NormalisingKeys(values, r);
    if DistinctIds(values) {
      NormalisingDistinct(values, r);
      NormalisedIsLayout(r);
    }
  }

  /** A Go map of records by id. */
  type ByRecord = map<RecordId, Endpoint>

  ghost predicate KeyedById(m: ByRecord) { forall id :: id in m ==> m[id].id == id }

  function AttrsIn(m: ByRecord): map<RecordId, Attr> { map id | id in m :: m[id].attr }

  ghost predicate HoldsKey(m: ByRecord, k: TargetKey) { k.id in m && k.target in m[k.id].targets }

  /** The values of the map, in the arbitrary order a Go map is walked in. */
  method ListValues(m: ByRecord) returns (r: seq<Endpoint>)
    requires KeyedById(m)
    ensures DistinctIds(r)
    ensures forall e :: e in r <==> e.id in m && e == m[e.id]
  {
    r := [];
    var rest := m.Keys;
    while rest != {}
      invariant rest <= m.Keys && DistinctIds(r)
      invariant forall e :: e in r <==> e.id in m.Keys - rest && e == m[e.id]
      decreases |rest|
    {
      var id :| id in rest;
      r := r + [m[id]];
      rest := rest - {id};
    }
  }

  lemma ListedViews(m: ByRecord, r: seq<Endpoint>, keys: set<TargetKey>)
    requires KeyedById(m) && DistinctIds(r) && forall e :: e in r <==> e.id in m && e == m[e.id]
    requires forall k :: k in keys <==> HoldsKey(m, k)
    ensures KeysOf(r) == keys && AttrsOf(r) == AttrsIn(m)
  {
    forall k ensures k in KeysOf(r) <==> k in keys {
      KeysOfHas(r, k);
      if k in keys { assert m[k.id] in r; }
    }
    forall id | id in AttrsIn(m) ensures id in AttrsOf(r) && AttrsOf(r)[id] == AttrsIn(m)[id] {
      assert m[id] in r;
      AttrsOfAt(r, m[id]);
    }
    forall id | id in AttrsOf(r) ensures id in m {
      AttrsOfHas(r, id);
    }
  }

  /** `normalizeRecords`: repeated ids are merged, the first record's attributes kept. */
  method NormalizeRecords(records: seq<Record>) returns (r: seq<Endpoint>)
    ensures r == Layout(DesiredAttrs(records), DesiredKeys(records))
  {
    var byRecord: ByRecord := map[];
    for i := 0 to |records|
      invariant KeyedById(byRecord)
      invariant AttrsIn(byRecord) == DesiredAttrs(records[..i])
      invariant forall k :: k in DesiredKeys(records[..i]) <==> HoldsKey(byRecord, k)
    {
      var record := records[i];
      var one := NormalizeOne(Endpoint(NormId(record), record.targets, Attr(record.ttl, record.properties)));
      var key := NormId(record);
      var before := byRecord;
      if key in byRecord {
        var existing := byRecord[key];
        byRecord := byRecord[key := existing.(targets := existing.targets + one.targets)];
      } else {
        byRecord := byRecord[key := one];
      }
      RecordStep(records, i, before, byRecord, one);
    }
    assert records[..|records|] == records;
    r := ListValues(byRecord);
    ListedViews(byRecord, r, DesiredKeys(records));
    var listed := r;
    r := NormalizeEndpoints(listed);
    assert NormAttrs(AttrsOf(listed)) == DesiredAttrs(records) by {
      DesiredAttrsSorted(records);
      forall id | id in DesiredAttrs(records) ensures NormAttr(DesiredAttrs(records)[id]) == DesiredAttrs(records)[id] {
        NormAttrFixed(DesiredAttrs(records)[id]);
      }
    }
  }

  lemma HoldsMore(keys: set<TargetKey>, before: ByRecord, after: ByRecord, one: Endpoint)
    requires forall k :: k in keys <==> HoldsKey(before, k)
    requires after == before[one.id :=
               if one.id in before then before[one.id].(targets := before[one.id].targets + one.targets) else one]
    ensures forall k :: k in keys + EndpointKeys(one) <==> HoldsKey(after, k)
  {
    forall k ensures k in keys + EndpointKeys(one) <==> HoldsKey(after, k) {
      assert k in EndpointKeys(one) <==> k.id == one.id && k.target in one.targets by {
        assert k == TargetKey(k.id, k.target);
      }
      if one.id in before && k.id == one.id {
        assert k.target in after[one.id].targets <==> k.target in before[one.id].targets || k.target in one.targets;
      }
    }
  }

  lemma RecordStep(records: seq<Record>, i: nat, before: ByRecord, after: ByRecord, one: Endpoint)
    requires i < |records| && KeyedById(before)
    requires AttrsIn(before) == DesiredAttrs(records[..i])
    requires forall k :: k in DesiredKeys(records[..i]) <==> HoldsKey(before, k)
    requires
      one == NormOne(Endpoint(NormId(records[i]), records[i].targets, Attr(records[i].ttl, records[i].properties)))
    requires after == before[one.id :=
               if one.id in before then before[one.id].(targets := before[one.id].targets + one.targets) else one]
    ensures KeyedById(after)
    ensures AttrsIn(after) == DesiredAttrs(records[..i + 1])
    ensures forall k :: k in DesiredKeys(records[..i + 1]) <==> HoldsKey(after, k)
  {
    var record := records[i];
    assert records[..i + 1][..i] == records[..i];
    NormOneFacts(Endpoint(NormId(record), record.targets, Attr(record.ttl, record.properties)));
    assert one.id == NormId(record) && one.attr == RecordAttr(record);
    assert EndpointKeys(one) == RecordKeys(record);
    HoldsMore(DesiredKeys(records[..i]), before, after, one);
    assert DesiredKeys(records[..i + 1]) == DesiredKeys(records[..i]) + EndpointKeys(one);
    hide DesiredKeys, HoldsKey, EndpointKeys, RecordKeys, NormOne, RecordAttr, NormId;
    assert one.id in AttrsIn(before) <==> one.id in before;
  }
}
