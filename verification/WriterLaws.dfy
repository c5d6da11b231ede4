/** Laws of one step of the writer: the exact meaning of `build`, what a built object looks like,
    quiescence, and the relation of `Advance` to `build`.
 */
module WriterLaws {
  import opened Ordering
  import opened Endpoints
  import opened Lifecycle
  import opened Objects
  import opened Text
  import opened WriterSpec

  /** A record name that `normalizeRecords` leaves alone. */
  predicate FixedName(name: string) { ToLower(TrimDot(name)) == name }

  predicate GoodKey(k: TargetKey) { FilledKey(k) && FixedName(k.id.dnsName) }

  /** A publication as the resolver produces it: no empty field, normalised names, a delay that is
      not negative. */
  ghost predicate GoodPublication(pub: Publication) {
    && pub.deletionDelay >= 0
    && (forall d :: d in pub.records ==> FixedName(d.dnsName) && d.dnsName != "" && d.recordType != "")
    && (forall d, t :: d in pub.records && t in d.targets ==> t != "")
  }

  /** The shape of every object the writer leaves behind. */
  ghost predicate Sound(o: Object) {
    && NormalForm(o.endpoints) && o.endpoints != []
    && Readable(o)
    && o.lifecycle == Marshal(Pending(o))
    && forall k :: k in Keys(o) ==> GoodKey(k)
  }

  lemma GoodDesired(pub: Publication)
    requires GoodPublication(pub)
    ensures forall k :: k in DesiredKeys(pub.records) ==> GoodKey(k)
  {
    forall k | k in DesiredKeys(pub.records) ensures GoodKey(k) {
      DesiredKeysHas(pub.records, k);
      var d :| d in pub.records && NormId(d) == k.id && k.target in d.targets;
    }
  }

  lemma NormAttrFixed(a: Attr)
    requires Sorted(PropertyLess, a.properties)
    ensures NormAttr(a) == a
  {
    assert SortSeq(PropertyLess, a.properties) == a.properties by {
      Orders();
      SortSeqIs(PropertyLess, a.properties, a.properties);
    }
  }

  lemma NormAttrSorted(a: Attr)
    ensures Sorted(PropertyLess, NormAttr(a).properties)
    ensures NormAttr(NormAttr(a)) == NormAttr(a)
  {
    assert Sorted(PropertyLess, NormAttr(a).properties) by {
      Orders();
      SortSeqSorts(PropertyLess, a.properties);
    }
    NormAttrFixed(NormAttr(a));
  }

  lemma StoredAttrsSorted(o: Object)
    ensures SortedAttrs(StoredAttrs(o))
  {
    forall id | id in StoredAttrs(o) ensures Sorted(PropertyLess, StoredAttrs(o)[id].properties) {
      NormAttrSorted(AttrsOf(o.endpoints)[id]);
    }
  }

  lemma {:induction false} DesiredAttrsSorted(records: seq<Record>)
    ensures SortedAttrs(DesiredAttrs(records))
  {
    if records != [] {
      DesiredAttrsSorted(records[..|records| - 1]);
      var last := records[|records| - 1];
      NormAttrSorted(Attr(last.ttl, last.properties));
    }
  }

  /** Writing a layout and reading it back gives its attributes and keys. */
  lemma LayoutStored(o: Object, attrs: map<RecordId, Attr>, keys: set<TargetKey>)
    requires o.endpoints == Layout(attrs, keys)
    requires SortedAttrs(attrs) && attrs.Keys == Ids(keys)
    ensures Keys(o) == keys
    ensures StoredAttrs(o) == attrs
    ensures NormalForm(o.endpoints)
    ensures keys != {} ==> o.endpoints != []
  {
    assert Keys(o) == keys by { LayoutKeys(attrs, keys); }
    assert StoredAttrs(o) == attrs by {
      LayoutAttrs(attrs, keys);
      SortedAttrsFixed(o);
    }
    LayoutNormalForm(attrs, keys);
    NonEmpty(o.endpoints);
  }

  lemma NonEmpty(eps: seq<Endpoint>)
    ensures KeysOf(eps) != {} ==> eps != []
  {
  }

  lemma SortedAttrsFixed(o: Object)
    requires SortedAttrs(AttrsOf(o.endpoints))
    ensures StoredAttrs(o) == AttrsOf(o.endpoints)
  {
    var attrs := AttrsOf(o.endpoints);
    forall id | id in attrs ensures NormAttr(attrs[id]) == attrs[id] {
      NormAttrFixed(attrs[id]);
    }
  }

  /** A normal object's records are the layout of its own views. */
  lemma NormalViews(o: Object)
    requires NormalForm(o.endpoints)
    ensures o.endpoints == Layout(StoredAttrs(o), Keys(o))
    ensures StoredAttrs(o).Keys == Ids(Keys(o))
    ensures SortedAttrs(StoredAttrs(o))
  {
    NormalisedIsLayout(o.endpoints);
    SortedAttrsFixed(o);
    NormalIds(o.endpoints);
  }

  lemma NormalIds(eps: seq<Endpoint>)
    requires forall e :: e in eps ==> e.targets != []
    ensures AttrsOf(eps).Keys == Ids(KeysOf(eps))
  {
    forall id | id in AttrsOf(eps) ensures id in Ids(KeysOf(eps)) {
      AttrsOfHas(eps, id);
      var e :| e in eps && e.id == id;
      assert e.targets[0] in e.targets;
      KeysOfHas(eps, TargetKey(id, e.targets[0]));
      assert TargetKey(id, e.targets[0]) in KeysOf(eps);
    }
    forall id | id in Ids(KeysOf(eps)) ensures id in AttrsOf(eps) {
      var k :| k in KeysOf(eps) && k.id == id;
      KeysOfHas(eps, k);
      AttrsOfHas(eps, id);
    }
  }

  ghost predicate GoodPending(current: Option<Object>) {
    current.Some? ==> Readable(current.value)
  }

  /** Every key that `build` publishes has attributes to publish it with. */
  lemma ChosenCovers(pub: Publication, current: Option<Object>, now: int)
    requires GoodPending(current)
    ensures
      var keys := DesiredKeys(pub.records) + Kept(pub, current, now).Keys;
      var attrs := ChosenAttrs(pub.records, current, keys);
      SortedAttrs(attrs) && attrs.Keys == Ids(keys)
  {
    var keys := DesiredKeys(pub.records) + Kept(pub, current, now).Keys;
    DesiredAttrsSorted(pub.records);
    if current.Some? { StoredAttrsSorted(current.value); }
    forall k | k in keys ensures k.id in StoredOr(current) + DesiredAttrs(pub.records) {
      if k in DesiredKeys(pub.records) {
        DesiredKeysHas(pub.records, k);
        DesiredAttrsHas(pub.records, k.id);
      } else {
        KeysOfHas(current.value.endpoints, k);
        AttrsOfHas(current.value.endpoints, k.id);
      }
    }
  }

  /** What `build` leaves when it leaves an object. */
  ghost predicate IsBuilt(pub: Publication, current: Option<Object>, now: int, o: Object)
    requires GoodPending(current)
  {
    var desired := DesiredKeys(pub.records);
    var kept := Kept(pub, current, now);
    && Keys(o) == desired + kept.Keys
    && Pending(o) == kept && o.lifecycle == Marshal(kept) && ValidText(o.lifecycle)
    && StoredAttrs(o) == ChosenAttrs(pub.records, current, Keys(o))
    && NormalForm(o.endpoints) && o.endpoints != []
  }

  lemma KeptFilled(pub: Publication, current: Option<Object>, now: int)
    requires SoundOr(current)
    ensures forall k :: k in Kept(pub, current, now) ==> FilledKey(k)
  {
  }

  /** Exact meaning of `build`: nothing exactly when no target is left; otherwise the targets are
      the desired ones and those published before that are not yet due, the pending list is exactly
      the second part, and records and list are in their one sorted form. */
  lemma BuildMeaning(hash16: string -> string, id: Identity, provider: string, pub: Publication,
                     current: Option<Object>, now: int)
    requires SoundOr(current)
    ensures
      match Build(hash16, id, provider, pub, current, now)
      case Invalid => false
      case Nothing => DesiredKeys(pub.records) == {} && Kept(pub, current, now).Keys == {}
      case Built(o) => IsBuilt(pub, current, now, o)
  {
    var kept := Kept(pub, current, now);
    var keys := DesiredKeys(pub.records) + kept.Keys;
    if keys != {} {
      ChosenCovers(pub, current, now);
      var o := Build(hash16, id, provider, pub, current, now).obj;
      LayoutStored(o, ChosenAttrs(pub.records, current, keys), keys);
      KeptFilled(pub, current, now);
      MarshalRoundTrip(kept);
    }
  }

  /** The same, said of one target: whether it stays, whether it is active, and its deadline. */
  lemma BuildTarget(hash16: string -> string, id: Identity, provider: string, pub: Publication,
                    o: Object, now: int, k: TargetKey)
    requires Sound(o)
    ensures
      var r := Build(hash16, id, provider, pub, Some(o), now);
      var desired := k in DesiredKeys(pub.records);
      var due := DueAt(Pending(o), o.delay.nanos, now, k);
      && (r.Built? && k in Keys(r.obj) <==> desired || (k in Keys(o) && due > now))
      && (r.Built? && k in Active(r.obj) <==> desired)
      && (r.Built? && k in Pending(r.obj) ==> Pending(r.obj)[k] == due)
  {
    BuildMeaning(hash16, id, provider, pub, Some(o), now);
    RetainedTarget(Keys(o), Pending(o), o.delay.nanos, DesiredKeys(pub.records), now, k);
  }

  lemma RetainedTarget(keys: set<TargetKey>, pending: map<TargetKey, int>, delay: int,
                       desired: set<TargetKey>, now: int, k: TargetKey)
    ensures
      var r := Retained(keys, pending, delay, desired, now);
      var due := DueAt(pending, delay, now, k);
      && (k in desired + r.Keys <==> k in desired || (k in keys && due > now))
      && (k in (desired + r.Keys) - r.Keys <==> k in desired)
      && (k in r ==> r[k] == due)
  {
  }

  ghost predicate SoundOr(current: Option<Object>) { current.Some? ==> Sound(current.value) }

  /** Self-acceptance of one step: from a sound object `build` never reports invalid state, and what
      it builds is sound again. */
  lemma BuildSound(hash16: string -> string, id: Identity, provider: string, pub: Publication,
                   current: Option<Object>, now: int)
    requires GoodPublication(pub) && SoundOr(current)
    requires current.None? ==> pub.records != []
    ensures
      var r := Build(hash16, id, provider, pub, current, now);
      !r.Invalid? && (r.Built? ==> Sound(r.obj))
  {
    GoodDesired(pub);
    BuildMeaning(hash16, id, provider, pub, current, now);
  }

  /** The first desired record of an id. */
  ghost predicate FirstOf(records: seq<Record>, i: nat, id: RecordId) {
    i < |records| && NormId(records[i]) == id && forall j :: 0 <= j < i ==> NormId(records[j]) != id
  }

  lemma DesiredAttrsNext(records: seq<Record>)
    requires records != []
    ensures
      var last, rest := records[|records| - 1], DesiredAttrs(records[..|records| - 1]);
      DesiredAttrs(records) == if NormId(last) in rest then rest else rest[NormId(last) := RecordAttr(last)]
  {
    hide RecordAttr, NormId;
  }

  lemma {:induction false} FirstWins(records: seq<Record>, i: nat, id: RecordId)
    requires FirstOf(records, i, id)
    ensures id in DesiredAttrs(records) && DesiredAttrs(records)[id] == RecordAttr(records[i])
  {
    hide DesiredAttrs, RecordAttr, NormId;
    var n := |records| - 1;
    DesiredAttrsNext(records);
    if i < n {
      FirstWins(records[..n], i, id);
    } else {
      DesiredAttrsHas(records[..n], id);
    }
  }

  /** The TTL of a desired record, and its properties sorted. */
  ghost predicate CarriesAttributes(e: Endpoint, d: Record) {
    && e.attr.ttl == d.ttl
    && Sorted(PropertyLess, e.attr.properties) && multiset(e.attr.properties) == multiset(d.properties)
  }

  lemma RecordAttrIs(d: Record, e: Endpoint)
    requires e.attr == RecordAttr(d)
    ensures CarriesAttributes(e, d)
  {
    Orders();
    SortSeqSorts(PropertyLess, d.properties);
  }

  lemma ChosenIs(records: seq<Record>, current: Option<Object>, keys: set<TargetKey>, id: RecordId)
    requires id in ChosenAttrs(records, current, keys)
    ensures
      if id in DesiredAttrs(records) then ChosenAttrs(records, current, keys)[id] == DesiredAttrs(records)[id]
      else
        && current.Some? && id in StoredAttrs(current.value)
        && ChosenAttrs(records, current, keys)[id] == StoredAttrs(current.value)[id]
  {
    hide DesiredAttrs, StoredAttrs;
  }

  lemma NormalAttr(o: Object, e: Endpoint)
    requires NormalForm(o.endpoints) && e in o.endpoints
    ensures e.id in StoredAttrs(o) && StoredAttrs(o)[e.id] == e.attr
  {
    NormalisedIsLayout(o.endpoints);
    NormalViews(o);
    SortedIdsDistinct(o.endpoints);
    AttrsOfAt(o.endpoints, e);
    SortedAttrsFixed(o);
  }

  lemma StoredHas(o: Object, id: RecordId) returns (e: Endpoint)
    requires NormalForm(o.endpoints) && id in StoredAttrs(o)
    ensures e in o.endpoints && e.id == id && StoredAttrs(o)[id] == e.attr
  {
    AttrsOfHas(o.endpoints, id);
    e :| e in o.endpoints && e.id == id;
    NormalAttr(o, e);
  }

  /** A CHANGED TTL OR PROPERTY TAKES EFFECT. Every record of a built object whose id is desired has the TTL
      and the properties, sorted, of the first desired record of that id; a record kept only for its
      retiring targets has those it had. */
  lemma BuiltAttributes(hash16: string -> string, id: Identity, provider: string, pub: Publication,
                        current: Option<Object>, now: int, e: Endpoint)
    requires SoundOr(current) && Build(hash16, id, provider, pub, current, now).Built?
    requires e in Build(hash16, id, provider, pub, current, now).obj.endpoints
    ensures forall i: nat :: FirstOf(pub.records, i, e.id) ==> CarriesAttributes(e, pub.records[i])
    ensures
      (forall d :: d in pub.records ==> NormId(d) != e.id) ==>
        current.Some? && exists x :: x in current.value.endpoints && x.id == e.id && x.attr == e.attr
  {
    hide Build, ChosenAttrs, StoredAttrs, Sound, KeysOf, Marshal, ValidText, Kept, NormalForm, DesiredKeys;
    var o := Build(hash16, id, provider, pub, current, now).obj;
    BuildMeaning(hash16, id, provider, pub, current, now);
    NormalAttr(o, e);
    ChosenIs(pub.records, current, Keys(o), e.id);
    DesiredAttrsHas(pub.records, e.id);
    forall i: nat | FirstOf(pub.records, i, e.id) ensures CarriesAttributes(e, pub.records[i]) {
      FirstWins(pub.records, i, e.id);
      RecordAttrIs(pub.records[i], e);
    }
    if forall d :: d in pub.records ==> NormId(d) != e.id {
      assert NormalForm(current.value.endpoints) by { SoundNormal(current.value); }
      var x := StoredHas(current.value, e.id);
    }
  }

  lemma SoundNormal(o: Object)
    requires Sound(o)
    ensures NormalForm(o.endpoints)
  {
  }

  lemma {:induction false} OwnersIdempotent(owners: seq<OwnerRef>, id: Identity)
    ensures WithoutSourceOwner(WithoutSourceOwner(owners, id), id) == WithoutSourceOwner(owners, id)
  {
    if owners != [] {
      var n := |owners| - 1;
      var rest := WithoutSourceOwner(owners[..n], id);
      OwnersIdempotent(owners[..n], id);
      if owners[n] != OwnerRef(id.apiVersion, id.kind, id.name) {
        assert (rest + [owners[n]])[..|rest|] == rest;
      }
    }
  }

  lemma AssembleIdempotent(hash16: string -> string, id: Identity, provider: string, pub: Publication,
                           current: Option<Object>, eps: seq<Endpoint>, text: LifecycleText)
    ensures
      var o := Assemble(hash16, id, provider, pub, current, eps, text);
      Assemble(hash16, id, provider, pub, Some(o), eps, text) == o
  {
    hide SourceKey, ObjectName, Labels, Annotations, WithoutSourceOwner;
    var base := if current.Some? then current.value
                else Object(id.namespace, ObjectName(hash16, id, provider), map[], map[], NoDelay, Missing, [], []);
    OwnersIdempotent(base.owners, id);
    LabelsIdempotent(hash16, id, provider, base.labels);
    AnnotationsIdempotent(id, pub, base.annotations);
  }

  lemma LabelsIdempotent(hash16: string -> string, id: Identity, provider: string, before: map<LabelKey, string>)
    ensures
      var labels := Labels(hash16, id, provider, before);
      Labels(hash16, id, provider, labels) == labels
  {
    hide SourceKey;
  }

  lemma AnnotationsIdempotent(id: Identity, pub: Publication, before: map<AnnotationKey, string>)
    ensures
      var annotations := Annotations(id, pub, before);
      Annotations(id, pub, annotations) == annotations
  {
  }

  /** Quiescence: building again from what was built, with the same publication and before any of
      its deadlines, gives the same object, so `applyOne` writes nothing. */
  lemma Quiescent(hash16: string -> string, id: Identity, provider: string, pub: Publication,
                  current: Option<Object>, t1: int, t2: int, selected: bool)
    requires GoodPublication(pub) && SoundOr(current)
    requires current.None? ==> pub.records != []
    requires Build(hash16, id, provider, pub, current, t1).Built?
    requires
      var o := Build(hash16, id, provider, pub, current, t1).obj;
      forall k :: k in Pending(o) ==> Pending(o)[k] > t2
    ensures
      var o := Build(hash16, id, provider, pub, current, t1).obj;
      && Build(hash16, id, provider, pub, Some(o), t2) == Built(o)
      && ApplyOne(hash16, id, provider, pub, selected, Some(o), t2) == NoWrite
  {
    var o := Build(hash16, id, provider, pub, current, t1).obj;
    BuildSound(hash16, id, provider, pub, current, t1);
    BuildMeaning(hash16, id, provider, pub, current, t1);
    BuiltIsAssembled(hash16, id, provider, pub, current, t1);
    BuildAgain(hash16, id, provider, pub, current, o, t1, t2);
    NothingToWrite(hash16, id, provider, pub, o, t2, selected);
  }

  /** What `build` does to everything around the records: it owns three labels and the identity
      annotations, replaces the copied annotations when it has records, drops the source's owner
      reference, stores the new delay when it has records, and leaves every foreign key alone. */
  lemma BuiltMetadata(hash16: string -> string, id: Identity, provider: string, pub: Publication, o: Object, now: int)
    requires Build(hash16, id, provider, pub, Some(o), now).Built? && forall k :: k in pub.metadata ==> k.ExternalDNS?
    ensures
      var b := Build(hash16, id, provider, pub, Some(o), now).obj;
      var copied := if pub.records != [] then pub.metadata else o.annotations;
      && b.namespace == o.namespace && b.name == o.name && Owned(hash16, id, provider, b)
      && (forall n :: SameEntry(b.labels, o.labels, ForeignLabel(n)))
      && (forall n :: SameEntry(b.annotations, o.annotations, ForeignAnnotation(n)))
      && (forall x :: SameEntry(b.annotations, copied, ExternalDNS(x)))
      && Lookup(b.annotations, SourceKind) == id.kind && Lookup(b.annotations, SourceNamespace) == id.namespace
      && Lookup(b.annotations, SourceName) == id.name
      && (if id.uid != "" then Lookup(b.annotations, SourceUID) == id.uid
          else SameEntry(b.annotations, o.annotations, SourceUID))
      && b.delay == (if pub.records != [] then Delay(pub.deletionDelay) else o.delay)
      && (forall r :: r in b.owners <==> r in o.owners && r != OwnerRef(id.apiVersion, id.kind, id.name))
  {
    hide Build, SourceKey, ObjectName;
    BuiltIsAssembled(hash16, id, provider, pub, Some(o), now);
    OwnersLeft(o.owners, id);
  }

  predicate SameEntry<K(==)>(a: map<K, string>, b: map<K, string>, k: K) {
    (k in a <==> k in b) && (k in a && k in b ==> a[k] == b[k])
  }

  lemma {:induction false} OwnersLeft(owners: seq<OwnerRef>, id: Identity)
    ensures
      forall r :: r in WithoutSourceOwner(owners, id) <==> r in owners && r != OwnerRef(id.apiVersion, id.kind, id.name)
  {
    if owners != [] {
      var n := |owners| - 1;
      OwnersLeft(owners[..n], id);
      assert owners == owners[..n] + [owners[n]];
    }
  }

  lemma BuiltIsAssembled(hash16: string -> string, id: Identity, provider: string, pub: Publication,
                         current: Option<Object>, now: int)
    requires Build(hash16, id, provider, pub, current, now).Built?
    ensures
      var o := Build(hash16, id, provider, pub, current, now).obj;
      o == Assemble(hash16, id, provider, pub, current, o.endpoints, o.lifecycle)
  {
  }

  lemma NothingToWrite(hash16: string -> string, id: Identity, provider: string, pub: Publication,
                       o: Object, now: int, selected: bool)
    requires Build(hash16, id, provider, pub, Some(o), now) == Built(o)
    ensures ApplyOne(hash16, id, provider, pub, selected, Some(o), now) == NoWrite
  {
    BuiltIsAssembled(hash16, id, provider, pub, Some(o), now);
    LabelsOwn(hash16, id, provider, o, o.labels);
  }

  lemma LabelsOwn(hash16: string -> string, id: Identity, provider: string, o: Object, before: map<LabelKey, string>)
    requires o.labels == Labels(hash16, id, provider, before)
    ensures Owned(hash16, id, provider, o)
  {
  }

  lemma BuildAgain(hash16: string -> string, id: Identity, provider: string, pub: Publication,
                   current: Option<Object>, o: Object, t1: int, t2: int)
    requires GoodPending(current) && IsBuilt(pub, current, t1, o) && Readable(o)
    requires o == Assemble(hash16, id, provider, pub, current, o.endpoints, o.lifecycle)
    requires forall k :: k in Pending(o) ==> Pending(o)[k] > t2
    ensures Build(hash16, id, provider, pub, Some(o), t2) == Built(o)
  {
    KeptAgain(Keys(o), Pending(o), o.delay.nanos, DesiredKeys(pub.records), t2);
    ChosenAgain(pub, current, o);
    AssembleIdempotent(hash16, id, provider, pub, current, o.endpoints, o.lifecycle);
    assert Kept(pub, Some(o), t2) == Pending(o);
    NormalViews(o);
    KeysNonEmpty(o.endpoints);
  }

  lemma KeysNonEmpty(eps: seq<Endpoint>)
    requires NormalForm(eps) && eps != []
    ensures KeysOf(eps) != {}
  {
    var k := TargetKey(eps[0].id, eps[0].targets[0]);
    assert eps[0] in eps && k.target in eps[0].targets;
    KeysOfHas(eps, k);
  }

  /** Before any deadline, what is pending stays pending as it is. */
  lemma KeptAgain(keys: set<TargetKey>, pending: map<TargetKey, int>, delay: int, desired: set<TargetKey>, t: int)
    requires keys == desired + pending.Keys && desired !! pending.Keys
    requires forall k :: k in pending ==> pending[k] > t
    ensures Retained(keys, pending, delay, desired, t) == pending
  {
  }

  lemma ChosenAgain(pub: Publication, current: Option<Object>, o: Object)
    requires StoredAttrs(o) == ChosenAttrs(pub.records, current, Keys(o))
    ensures ChosenAttrs(pub.records, Some(o), Keys(o)) == StoredAttrs(o)
  {
  }
}
