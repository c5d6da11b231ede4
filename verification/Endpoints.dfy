/** DNS records as the writer stores them, and their one normal form. A list of endpoints is seen
    through two independent views: the set of published (name, type, target) keys, and the
    attributes of each record. `Layout` is the list the two views determine.
 */
module Endpoints {
  import opened Ordering

  datatype Property = Property(name: string, value: string)
  datatype RecordId = RecordId(dnsName: string, recordType: string)
  datatype Attr = Attr(ttl: int, properties: seq<Property>)
  datatype Endpoint = Endpoint(id: RecordId, targets: seq<string>, attr: Attr)
  datatype TargetKey = TargetKey(id: RecordId, target: string)

  predicate PropertyLess(a: Property, b: Property) {
    StringLess(a.name, b.name) || (a.name == b.name && StringLess(a.value, b.value))
  }

  predicate IdLess(a: RecordId, b: RecordId) {
    StringLess(a.dnsName, b.dnsName) || (a.dnsName == b.dnsName && StringLess(a.recordType, b.recordType))
  }

  /** The order of `sortPending`. */
  predicate KeyLess(a: TargetKey, b: TargetKey) {
    IdLess(a.id, b.id) || (a.id == b.id && StringLess(a.target, b.target))
  }

  /** The order of the final sort of `normalizeEndpoints`: ties between equal record ids. */
  predicate EndpointLess(a: Endpoint, b: Endpoint) { IdLess(a.id, b.id) }

  lemma Orders()
    ensures StrictTotal(StringLess) && StrictTotal(PropertyLess)
    ensures StrictTotal(IdLess) && StrictTotal(KeyLess)
  {
    StringOrder();
  }

  lemma EndpointOrder()
    ensures StrictWeak(EndpointLess)
  {
    Orders();
    TotalIsWeak(IdLess);
    forall x: Endpoint, y: Endpoint | EndpointLess(x, y) ensures !EndpointLess(y, x) {
      assert IdLess(x.id, y.id);
    }
    forall x: Endpoint, y: Endpoint, z: Endpoint | !EndpointLess(x, y) && !EndpointLess(y, z)
      ensures !EndpointLess(x, z)
    {
      assert !IdLess(x.id, y.id) && !IdLess(y.id, z.id);
    }
  }

  ghost predicate HasKey(eps: seq<Endpoint>, k: TargetKey) {
    exists e :: e in eps && e.id == k.id && k.target in e.targets
  }

  function EndpointKeys(e: Endpoint): set<TargetKey> { set t | t in e.targets :: TargetKey(e.id, t) }

  /** `endpointTargets` as a set. */
  function KeysOf(eps: seq<Endpoint>): set<TargetKey> {
    if eps == [] then {} else KeysOf(eps[..|eps| - 1]) + EndpointKeys(eps[|eps| - 1])
  }

  lemma {:induction false} KeysOfHas(eps: seq<Endpoint>, k: TargetKey)
    ensures k in KeysOf(eps) <==> HasKey(eps, k)
  {
    if eps != [] {
      var n := |eps| - 1;
      KeysOfHas(eps[..n], k);
      assert eps == eps[..n] + [eps[n]];
      if HasKey(eps[..n], k) {
        var e :| e in eps[..n] && e.id == k.id && k.target in e.targets;
        assert e in eps;
      }
      if k in EndpointKeys(eps[n]) { assert eps[n] in eps; }
    }
  }

  ghost predicate HasId(eps: seq<Endpoint>, id: RecordId) {
    exists e :: e in eps && e.id == id
  }

  /** `currentByRecord`: the attributes of each record, the last one listed winning. */
  function AttrsOf(eps: seq<Endpoint>): map<RecordId, Attr> {
    if eps == [] then map[]
    else AttrsOf(eps[..|eps| - 1])[eps[|eps| - 1].id := eps[|eps| - 1].attr]
  }

  lemma {:induction false} AttrsOfHas(eps: seq<Endpoint>, id: RecordId)
    ensures id in AttrsOf(eps) <==> HasId(eps, id)
  {
    if eps != [] {
      var n := |eps| - 1;
      AttrsOfHas(eps[..n], id);
      assert eps == eps[..n] + [eps[n]];
      if HasId(eps[..n], id) {
        var e :| e in eps[..n] && e.id == id;
        assert e in eps;
      }
      if eps[n].id == id { assert eps[n] in eps; }
    }
  }

  ghost predicate DistinctIds(eps: seq<Endpoint>) {
    forall i, j :: 0 <= i < j < |eps| ==> eps[i].id != eps[j].id
  }

  lemma {:induction false} AttrsOfAt(eps: seq<Endpoint>, e: Endpoint)
    requires DistinctIds(eps) && e in eps
    ensures e.id in AttrsOf(eps) && AttrsOf(eps)[e.id] == e.attr
  {
    var n := |eps| - 1;
    if e != eps[n] {
      assert e in eps[..n];
      AttrsOfAt(eps[..n], e);
    }
  }

  function IdsOf(eps: seq<Endpoint>): (r: seq<RecordId>)
    ensures |r| == |eps| && forall i :: 0 <= i < |r| ==> r[i] == eps[i].id
  {
    seq(|eps|, i requires 0 <= i < |eps| => eps[i].id)
  }

  ghost predicate SortedIds(eps: seq<Endpoint>) {
    StrictlySorted(IdLess, IdsOf(eps))
  }

  /** Sorted by record id without ties, targets sorted without ties, properties sorted. A record
      may be listed without targets. */
  ghost predicate Normalised(eps: seq<Endpoint>) {
    && SortedIds(eps)
    && (forall e :: e in eps ==> StrictlySorted(StringLess, e.targets) && Sorted(PropertyLess, e.attr.properties))
  }

  /** What a stored spec looks like: normalised, and no record without targets. */
  ghost predicate NormalForm(eps: seq<Endpoint>) {
    Normalised(eps) && forall e :: e in eps ==> e.targets != []
  }

  function TargetsFor(keys: set<TargetKey>, id: RecordId): set<string> {
    set k | k in keys && k.id == id :: k.target
  }

  function Ids(keys: set<TargetKey>): set<RecordId> { set k | k in keys :: k.id }

  ghost predicate SortedAttrs(attrs: map<RecordId, Attr>) {
    forall id :: id in attrs ==> Sorted(PropertyLess, attrs[id].properties)
  }

  ghost function LayoutOne(attrs: map<RecordId, Attr>, keys: set<TargetKey>, id: RecordId): Endpoint {
    Orders();
    Endpoint(id, SortSet(StringLess, TargetsFor(keys, id)), if id in attrs then attrs[id] else Attr(0, []))
  }

  lemma LayoutOneTargets(attrs: map<RecordId, Attr>, keys: set<TargetKey>, id: RecordId)
    ensures
      var e := LayoutOne(attrs, keys, id);
      && StrictlySorted(StringLess, e.targets)
      && (forall t :: t in e.targets <==> TargetKey(id, t) in keys)
  {
    var e := LayoutOne(attrs, keys, id);
    assert StrictlySorted(StringLess, e.targets) && forall t :: t in e.targets <==> t in TargetsFor(keys, id) by {
      Orders();
      SortSetSorts(StringLess, TargetsFor(keys, id));
    }
    forall t ensures t in e.targets <==> TargetKey(id, t) in keys {
      assert t in TargetsFor(keys, id) <==> TargetKey(id, t) in keys;
    }
  }

  /** The normal list of the records of `attrs`, each with its targets in `keys`. */
  ghost function Layout(attrs: map<RecordId, Attr>, keys: set<TargetKey>): (r: seq<Endpoint>) {
    Orders();
    var ids := SortSet(IdLess, attrs.Keys);
    seq(|ids|, i requires 0 <= i < |ids| => LayoutOne(attrs, keys, ids[i]))
  }

  lemma LayoutMembers(attrs: map<RecordId, Attr>, keys: set<TargetKey>)
    ensures forall e :: e in Layout(attrs, keys) ==> e.id in attrs && e == LayoutOne(attrs, keys, e.id)
    ensures forall id :: id in attrs ==> LayoutOne(attrs, keys, id) in Layout(attrs, keys)
    ensures Layout(attrs, keys) == [] <==> attrs == map[]
    ensures SortedIds(Layout(attrs, keys))
  {
    Orders();
    SortSetSorts(IdLess, attrs.Keys);
    LayoutFrom(attrs, keys, SortSet(IdLess, attrs.Keys), Layout(attrs, keys));
  }

  lemma LayoutFrom(attrs: map<RecordId, Attr>, keys: set<TargetKey>, ids: seq<RecordId>, r: seq<Endpoint>)
    requires StrictlySorted(IdLess, ids) && forall id :: id in ids <==> id in attrs
    requires |r| == |ids| && forall i :: 0 <= i < |ids| ==> r[i] == LayoutOne(attrs, keys, ids[i])
    ensures forall e :: e in r ==> e.id in attrs && e == LayoutOne(attrs, keys, e.id)
    ensures forall id :: id in attrs ==> LayoutOne(attrs, keys, id) in r
    ensures r == [] <==> attrs == map[]
    ensures SortedIds(r)
  {
    assert IdsOf(r) == ids;
    forall e | e in r ensures e.id in attrs && e == LayoutOne(attrs, keys, e.id) {
      var i :| 0 <= i < |r| && r[i] == e;
      assert ids[i] in ids;
    }
    forall id | id in attrs ensures LayoutOne(attrs, keys, id) in r {
      assert id in ids;
      var i :| 0 <= i < |ids| && ids[i] == id;
      assert r[i] == LayoutOne(attrs, keys, id);
    }
    assert ids != [] ==> ids[0] in attrs;
    assert attrs != map[] ==> exists id :: id in attrs;
  }

  lemma LayoutKeys(attrs: map<RecordId, Attr>, keys: set<TargetKey>)
    requires forall k :: k in keys ==> k.id in attrs
    ensures KeysOf(Layout(attrs, keys)) == keys
  {
    var r := Layout(attrs, keys);
    LayoutMembers(attrs, keys);
    forall k ensures k in KeysOf(r) <==> k in keys {
      KeysOfHas(r, k);
      if k in keys {
        LayoutOneTargets(attrs, keys, k.id);
        assert LayoutOne(attrs, keys, k.id) in r;
      }
      if HasKey(r, k) {
        var e :| e in r && e.id == k.id && k.target in e.targets;
        LayoutOneTargets(attrs, keys, k.id);
        assert k == TargetKey(k.id, k.target);
      }
    }
  }

  lemma LayoutAttrs(attrs: map<RecordId, Attr>, keys: set<TargetKey>)
    ensures AttrsOf(Layout(attrs, keys)) == attrs
  {
    LayoutMembers(attrs, keys);
    var r := Layout(attrs, keys);
    forall id | id in attrs ensures HasId(r, id) {
      assert LayoutOne(attrs, keys, id) in r;
    }
    AttrsOfIs(r, attrs);
  }

  lemma AttrsOfIs(r: seq<Endpoint>, attrs: map<RecordId, Attr>)
    requires SortedIds(r)
    requires forall e :: e in r ==> e.id in attrs && e.attr == attrs[e.id]
    requires forall id :: id in attrs ==> HasId(r, id)
    ensures AttrsOf(r) == attrs
  {
    SortedIdsDistinct(r);
    forall id | id in attrs ensures id in AttrsOf(r) && AttrsOf(r)[id] == attrs[id] {
      var e :| e in r && e.id == id;
      AttrsOfAt(r, e);
    }
    forall id | id in AttrsOf(r) ensures id in attrs {
      AttrsOfHas(r, id);
      var e :| e in r && e.id == id;
    }
  }

  lemma LayoutNormalised(attrs: map<RecordId, Attr>, keys: set<TargetKey>)
    requires SortedAttrs(attrs)
    ensures Normalised(Layout(attrs, keys))
  {
    LayoutMembers(attrs, keys);
    forall e | e in Layout(attrs, keys) ensures StrictlySorted(StringLess, e.targets) {
      LayoutOneTargets(attrs, keys, e.id);
    }
  }

  lemma LayoutNormalForm(attrs: map<RecordId, Attr>, keys: set<TargetKey>)
    requires SortedAttrs(attrs) && attrs.Keys == Ids(keys)
    ensures NormalForm(Layout(attrs, keys))
  {
    LayoutNormalised(attrs, keys);
    LayoutMembers(attrs, keys);
    forall e | e in Layout(attrs, keys) ensures e.targets != [] {
      assert e.id in Ids(keys);
      var k :| k in keys && k.id == e.id;
      LayoutOneTargets(attrs, keys, e.id);
      assert k == TargetKey(k.id, k.target);
    }
  }

  /** A normalised list is determined by its two views. */
  lemma NormalisedIsLayout(eps: seq<Endpoint>)
    requires Normalised(eps)
    ensures eps == Layout(AttrsOf(eps), KeysOf(eps))
    ensures SortedAttrs(AttrsOf(eps))
  {
    var attrs, keys := AttrsOf(eps), KeysOf(eps);
    SortedIdsDistinct(eps);
    forall e | e in eps ensures e.id in attrs && e == LayoutOne(attrs, keys, e.id) {
      AttrsOfAt(eps, e);
      TargetsOfMember(eps, e);
    }
    forall id | id in attrs ensures HasId(eps, id) && Sorted(PropertyLess, attrs[id].properties) {
      AttrsOfHas(eps, id);
      var e :| e in eps && e.id == id;
      AttrsOfAt(eps, e);
    }
    LayoutMembers(attrs, keys);
    SameByIds(eps, Layout(attrs, keys));
  }

  lemma TargetsOfMember(eps: seq<Endpoint>, e: Endpoint)
    requires DistinctIds(eps) && e in eps && StrictlySorted(StringLess, e.targets)
    ensures StrictTotal(StringLess)
    ensures e.targets == SortSet(StringLess, TargetsFor(KeysOf(eps), e.id))
  {
    StringOrder();
    var keys := KeysOf(eps);
    forall t ensures t in e.targets <==> t in TargetsFor(keys, e.id) {
      KeysOfHas(eps, TargetKey(e.id, t));
      if t in e.targets { assert HasKey(eps, TargetKey(e.id, t)); assert TargetKey(e.id, t) in keys; }
      if t in TargetsFor(keys, e.id) {
        assert HasKey(eps, TargetKey(e.id, t));
        var f :| f in eps && f.id == e.id && t in f.targets;
        assert f == e;
      }
    }
    SortSetSorts(StringLess, TargetsFor(keys, e.id));
    SortedUnique(StringLess, e.targets, SortSet(StringLess, TargetsFor(keys, e.id)));
  }

  lemma SortedIdsDistinct(eps: seq<Endpoint>)
    requires SortedIds(eps)
    ensures DistinctIds(eps)
  {
    Orders();
  }

  lemma SameByIds(a: seq<Endpoint>, b: seq<Endpoint>)
    requires SortedIds(a) && SortedIds(b)
    requires forall e :: e in a ==> e in b
    requires forall e :: e in b ==> HasId(a, e.id)
    ensures a == b
  {
    var x, y := IdsOf(a), IdsOf(b);
    forall id ensures id in x <==> id in y {
      if id in x {
        var i :| 0 <= i < |x| && x[i] == id;
        assert a[i] in b;
        var j :| 0 <= j < |b| && b[j] == a[i];
        assert y[j] == id;
      }
      if id in y {
        var i :| 0 <= i < |y| && y[i] == id;
        assert b[i] in b;
        var f :| f in a && f.id == id;
        var j :| 0 <= j < |a| && a[j] == f;
        assert x[j] == id;
      }
    }
    assert x == y by { Orders(); SortedUnique(IdLess, x, y); }
    SortedIdsDistinct(b);
    forall i | 0 <= i < |a| ensures a[i] == b[i] {
      assert a[i] in b;
      assert x[i] == y[i];
    }
  }
}
