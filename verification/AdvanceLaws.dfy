/** Laws of `Advance`: what one step does, how steps compose, and that it is `build` with the
    object's own active records as the desired ones.
 */
module AdvanceLaws {
  import opened Ordering
  import opened Endpoints
  import opened Lifecycle
  import opened Objects
  import opened Text
  import opened WriterSpec
  import opened WriterLaws

  /** The object a step leaves behind. */
  function After(current: Option<Object>, action: Action): Option<Object> {
    match action
    case Create(o) => Some(o)
    case Update(o) => Some(o)
    case Delete => None
    case _ => current
  }

  predicate Managed(o: Object) { Lookup(o.labels, ManagedBy) == MANAGED_BY_VALUE }

  function Waiting(pending: map<TargetKey, int>, now: int): map<TargetKey, int> {
    map k | k in pending && pending[k] > now :: pending[k]
  }

  lemma RestrictCovers(o: Object, keys: set<TargetKey>)
    requires keys <= Keys(o)
    ensures Restrict(StoredAttrs(o), keys).Keys == Ids(keys)
    ensures SortedAttrs(Restrict(StoredAttrs(o), keys))
  {
    StoredAttrsSorted(o);
    forall k | k in keys ensures k.id in StoredAttrs(o) {
      KeysOfHas(o.endpoints, k);
      AttrsOfHas(o.endpoints, k.id);
    }
  }

  /** What `Advance` leaves when it updates. */
  ghost predicate IsAdvanced(o: Object, now: int, u: Object) {
    && Keys(u) == Keys(o) - Expired(o, now) && Keys(u) != {}
    && Pending(u) == Waiting(Pending(o), now)
    && u.lifecycle == Marshal(Pending(u)) && ValidText(u.lifecycle)
    && StoredAttrs(u) == Restrict(StoredAttrs(o), Keys(u))
    && u.endpoints == Layout(StoredAttrs(u), Keys(u))
    && NormalForm(u.endpoints) && u.endpoints != []
    && u == o.(endpoints := u.endpoints, lifecycle := u.lifecycle)
  }

  lemma PendingFilled(o: Object)
    requires Readable(o)
    ensures forall k :: k in Pending(o) ==> FilledKey(k) && k in Keys(o)
  {
    forall k | k in Pending(o) ensures FilledKey(k) {
      PendingMapHas(o.lifecycle.pending, k);
      var p :| p in o.lifecycle.pending && p.key == k;
      assert GoodEntry(p);
    }
  }

  /** Exact meaning of `Advance` on a managed, readable object: exactly the due targets go, their
      list entries go with them, every other field stays; nothing is written when none is due, and
      the object goes when every target is due. */
  lemma AdvanceMeaning(o: Object, now: int)
    requires Managed(o) && Readable(o)
    ensures
      match Advance(Some(o), now)
      case NoWrite => Expired(o, now) == {}
      case Delete => Expired(o, now) != {} && Keys(o) == Expired(o, now)
      case Update(u) => Expired(o, now) != {} && IsAdvanced(o, now, u)
      case _ => false
  {
    var expired := Expired(o, now);
    var keys := Keys(o) - expired;
    var waiting := map k | k in Pending(o) && k !in expired :: Pending(o)[k];
    PendingFilled(o);
    assert expired <= Keys(o);
    forall k | keys == {} && k in Keys(o) ensures k in expired {
      assert k !in keys;
    }
    if expired != {} && keys != {} {
      var u := Advance(Some(o), now).obj;
      RestrictCovers(o, keys);
      LayoutStored(u, Restrict(StoredAttrs(o), keys), keys);
      assert waiting == Waiting(Pending(o), now);
      MarshalRoundTrip(waiting);
    }
  }

  lemma AdvancedReadable(o: Object, now: int, u: Object)
    requires Readable(o) && IsAdvanced(o, now, u)
    ensures Readable(u)
  {
    PendingFilled(o);
  }

  /** Self-acceptance of one `Advance`. */
  lemma AdvanceSound(current: Option<Object>, now: int)
    requires SoundOr(current)
    ensures !Advance(current, now).Fail?
    ensures SoundOr(After(current, Advance(current, now)))
  {
    if current.Some? && Managed(current.value) {
      var o := current.value;
      AdvanceMeaning(o, now);
      if Advance(current, now).Update? {
        AdvancedReadable(o, now, Advance(current, now).obj);
      }
    }
  }

  lemma RestrictTwice(attrs: map<RecordId, Attr>, inner: set<TargetKey>, outer: set<TargetKey>)
    requires inner <= outer
    ensures Restrict(Restrict(attrs, outer), inner) == Restrict(attrs, inner)
  {
    assert Ids(inner) <= Ids(outer);
  }

  lemma ExpiredLater(o: Object, t1: int, t2: int, u: Object)
    requires t1 <= t2 && IsAdvanced(o, t1, u)
    ensures Expired(u, t2) == Expired(o, t2) - Expired(o, t1)
    ensures Waiting(Pending(u), t2) == Waiting(Pending(o), t2)
    ensures Keys(u) - Expired(u, t2) == Keys(o) - Expired(o, t2)
  {
    hide KeysOf, PendingMap, StoredAttrs, Layout, Marshal, NormalForm, ValidText;
  }

  lemma AdvancedUnique(o: Object, now: int, u: Object, v: Object)
    requires IsAdvanced(o, now, u) && IsAdvanced(o, now, v)
    ensures u == v
  {
  }

  /** Waking early changes nothing: `Advance` at t1 and then at t2 leaves what `Advance` at t2 leaves,
      on every object, readable or not. */
  lemma AdvanceComposes(current: Option<Object>, t1: int, t2: int)
    requires t1 <= t2
    ensures
      var early := After(current, Advance(current, t1));
      After(early, Advance(early, t2)) == After(current, Advance(current, t2))
  {
    if current.Some? && Managed(current.value) && Readable(current.value) {
      var o := current.value;
      AdvanceMeaning(o, t1);
      AdvanceMeaning(o, t2);
      assert Expired(o, t1) <= Expired(o, t2);
      match Advance(current, t1) {
        case Update(u) => AdvanceAfterUpdate(o, t1, t2, u);
        case _ =>
          PendingFilled(o);
      }
    }
  }

  lemma AdvanceAfterUpdate(o: Object, t1: int, t2: int, u: Object)
    requires t1 <= t2 && Managed(o) && Readable(o) && Expired(o, t1) != {} && IsAdvanced(o, t1, u)
    ensures After(Some(u), Advance(Some(u), t2)) == After(Some(o), Advance(Some(o), t2))
  {
    hide Readable, Advance, KeysOf, PendingMap, StoredAttrs, Layout, Marshal, NormalForm, ValidText;
    AdvancedReadable(o, t1, u);
    ExpiredLater(o, t1, t2, u);
    AdvanceMeaning(o, t2);
    AdvanceMeaning(u, t2);
    assert Expired(o, t2) != {} by {
      var k :| k in Expired(o, t1);
      assert k in Expired(o, t2);
    }
    RestrictTwice(StoredAttrs(o), Keys(o) - Expired(o, t2), Keys(u));
    if Advance(Some(o), t2).Update? {
      var w := Advance(Some(o), t2).obj;
      if Advance(Some(u), t2).Update? {
        AdvancedUnique(o, t2, Advance(Some(u), t2).obj, w);
      } else {
        AdvancedUnique(o, t2, u, w);
      }
    }
  }

  /** The object carries the labels, annotations and owner list that `build` would give it. */
  ghost predicate Tagged(hash16: string -> string, id: Identity, provider: string, o: Object) {
    && o.labels == Labels(hash16, id, provider, o.labels)
    && SourceKind in o.annotations && o.annotations[SourceKind] == id.kind
    && SourceNamespace in o.annotations && o.annotations[SourceNamespace] == id.namespace
    && SourceName in o.annotations && o.annotations[SourceName] == id.name
    && (id.uid != "" ==> SourceUID in o.annotations && o.annotations[SourceUID] == id.uid)
    && WithoutSourceOwner(o.owners, id) == o.owners
  }

  function Unretired(id: RecordId, targets: seq<string>, pending: set<TargetKey>): (r: seq<string>)
    ensures forall t :: t in r <==> t in targets && TargetKey(id, t) !in pending
  {
    if targets == [] then []
    else
      var t := targets[|targets| - 1];
      var rest := Unretired(id, targets[..|targets| - 1], pending);
      assert targets == targets[..|targets| - 1] + [t];
      if TargetKey(id, t) in pending then rest else rest + [t]
  }

  /** The records an object publishes that are not being retired. */
  function ActiveRecords(eps: seq<Endpoint>, pending: set<TargetKey>): seq<Record> {
    if eps == [] then []
    else
      var e := eps[|eps| - 1];
      var rest := ActiveRecords(eps[..|eps| - 1], pending);
      var targets := Unretired(e.id, e.targets, pending);
      if targets == [] then rest
      else rest + [Record(e.id.dnsName, e.id.recordType, targets, e.attr.ttl, e.attr.properties)]
  }

  function OwnMetadata(o: Object): map<AnnotationKey, string> {
    map k | k in o.annotations && k.ExternalDNS? :: o.annotations[k]
  }

  /** The publication an object stands for: its active records, its delay, its copied metadata. */
  ghost function OwnPublication(provider: string, o: Object): Publication
    requires Readable(o)
  {
    Publication(provider, ActiveRecords(o.endpoints, Pending(o).Keys), OwnMetadata(o), o.delay.nanos)
  }

  lemma DesiredSnoc(rest: seq<Record>, r: Record)
    ensures DesiredKeys(rest + [r]) == DesiredKeys(rest) + RecordKeys(r)
    ensures
      var before := DesiredAttrs(rest);
      DesiredAttrs(rest + [r]) == if NormId(r) in before then before else before[NormId(r) := RecordAttr(r)]
  {
    assert (rest + [r])[..|rest|] == rest;
  }

  lemma {:induction false} ActiveKeys(eps: seq<Endpoint>, pending: set<TargetKey>)
    requires forall e :: e in eps ==> FixedName(e.id.dnsName)
    ensures DesiredKeys(ActiveRecords(eps, pending)) == KeysOf(eps) - pending
    ensures ActiveRecords(eps, pending) == [] <==> KeysOf(eps) - pending == {}
  {
    if eps != [] {
      var n := |eps| - 1;
      var e := eps[n];
      ActiveKeys(eps[..n], pending);
      var rest := ActiveRecords(eps[..n], pending);
      var targets := Unretired(e.id, e.targets, pending);
      assert e in eps;
      if targets == [] {
        assert EndpointKeys(e) - pending == {};
      } else {
        var r := Record(e.id.dnsName, e.id.recordType, targets, e.attr.ttl, e.attr.properties);
        DesiredSnoc(rest, r);
        assert RecordKeys(r) == EndpointKeys(e) - pending;
        assert TargetKey(e.id, targets[0]) in EndpointKeys(e) - pending;
      }
    }
  }

  /** Normalising the active records keeps the stored attributes. */
  lemma {:induction false} ActiveAttrs(eps: seq<Endpoint>, pending: set<TargetKey>, id: RecordId)
    requires DistinctIds(eps)
    requires forall e :: e in eps ==> FixedName(e.id.dnsName) && Sorted(PropertyLess, e.attr.properties)
    ensures id in DesiredAttrs(ActiveRecords(eps, pending)) ==>
              id in AttrsOf(eps) && DesiredAttrs(ActiveRecords(eps, pending))[id] == AttrsOf(eps)[id]
  {
    if eps != [] {
      var n := |eps| - 1;
      var e := eps[n];
      ActiveAttrs(eps[..n], pending, id);
      ActiveAttrs(eps[..n], pending, e.id);
      var rest := ActiveRecords(eps[..n], pending);
      var targets := Unretired(e.id, e.targets, pending);
      assert e in eps;
      NormAttrFixed(e.attr);
      AttrsOfHas(eps[..n], e.id);
      assert e.id !in AttrsOf(eps[..n]);
      if targets != [] {
        var r := Record(e.id.dnsName, e.id.recordType, targets, e.attr.ttl, e.attr.properties);
        DesiredSnoc(rest, r);
        assert RecordAttr(r) == e.attr && NormId(r) == e.id;
      }
    }
  }

  lemma OwnDesires(provider: string, o: Object)
    requires Sound(o)
    ensures
      var records := OwnPublication(provider, o).records;
      && DesiredKeys(records) == Active(o)
      && (records == [] <==> Active(o) == {})
      && StoredAttrs(o) + DesiredAttrs(records) == StoredAttrs(o)
  {
    FixedNames(o);
    ActiveKeys(o.endpoints, Pending(o).Keys);
    OwnAttrs(o, Pending(o).Keys);
  }

  lemma OwnAttrs(o: Object, pending: set<TargetKey>)
    requires NormalForm(o.endpoints)
    requires forall e :: e in o.endpoints ==> FixedName(e.id.dnsName) && Sorted(PropertyLess, e.attr.properties)
    ensures StoredAttrs(o) + DesiredAttrs(ActiveRecords(o.endpoints, pending)) == StoredAttrs(o)
  {
    var desired := DesiredAttrs(ActiveRecords(o.endpoints, pending));
    assert StoredAttrs(o) == AttrsOf(o.endpoints) by {
      NormalisedIsLayout(o.endpoints);
      SortedAttrsFixed(o);
    }
    SortedIdsDistinct(o.endpoints);
    forall id | id in desired ensures id in StoredAttrs(o) && desired[id] == StoredAttrs(o)[id] {
      ActiveAttrs(o.endpoints, pending, id);
    }
  }

  lemma FixedNames(o: Object)
    requires NormalForm(o.endpoints) && forall k :: k in Keys(o) ==> GoodKey(k)
    ensures forall e :: e in o.endpoints ==> FixedName(e.id.dnsName) && Sorted(PropertyLess, e.attr.properties)
  {
    forall e | e in o.endpoints ensures FixedName(e.id.dnsName) {
      assert e.targets[0] in e.targets;
      KeysOfHas(o.endpoints, TargetKey(e.id, e.targets[0]));
      assert GoodKey(TargetKey(e.id, e.targets[0]));
    }
  }

  lemma TaggedAnnotations(hash16: string -> string, id: Identity, provider: string, o: Object, pub: Publication)
    requires Tagged(hash16, id, provider, o) && pub.metadata == OwnMetadata(o)
    ensures Annotations(id, pub, o.annotations) == o.annotations
  {
    assert (map k | k in o.annotations && !k.ExternalDNS? :: o.annotations[k]) + OwnMetadata(o) == o.annotations;
  }

  lemma OwnKept(keys: set<TargetKey>, pending: map<TargetKey, int>, delay: int, now: int)
    requires pending.Keys <= keys
    ensures Retained(keys, pending, delay, keys - pending.Keys, now) == Waiting(pending, now)
    ensures (keys - pending.Keys) + Waiting(pending, now).Keys == keys - (set k | k in pending && pending[k] <= now)
  {
  }

  /** `build` from its three ingredients: what is kept, which keys, which attributes. */
  lemma BuildValue(hash16: string -> string, id: Identity, provider: string, pub: Publication, o: Object, now: int,
                   keys: set<TargetKey>, kept: map<TargetKey, int>, attrs: map<RecordId, Attr>)
    requires Readable(o)
    requires Kept(pub, Some(o), now) == kept
    requires DesiredKeys(pub.records) + kept.Keys == keys
    requires ChosenAttrs(pub.records, Some(o), keys) == attrs
    ensures
      Build(hash16, id, provider, pub, Some(o), now) ==
      if keys == {} then Nothing
      else Built(Assemble(hash16, id, provider, pub, Some(o), Layout(attrs, keys), Marshal(kept)))
  {
  }

  lemma TaggedAssemble(hash16: string -> string, id: Identity, provider: string, o: Object, pub: Publication,
                       eps: seq<Endpoint>, text: LifecycleText)
    requires Tagged(hash16, id, provider, o) && pub.metadata == OwnMetadata(o)
    requires o.delay == Delay(pub.deletionDelay)
    ensures Assemble(hash16, id, provider, pub, Some(o), eps, text) == o.(endpoints := eps, lifecycle := text)
  {
    TaggedAnnotations(hash16, id, provider, o, pub);
  }

  lemma OwnChosen(provider: string, o: Object, keys: set<TargetKey>)
    requires Sound(o)
    ensures ChosenAttrs(OwnPublication(provider, o).records, Some(o), keys) == Restrict(StoredAttrs(o), keys)
  {
    OwnDesires(provider, o);
  }

  /** What both sides leave: the waiting part of the object. */
  ghost function Remaining(o: Object, now: int): Option<Object> {
    var keys := Keys(o) - Expired(o, now);
    if keys == {} then None
    else Some(o.(endpoints := Layout(Restrict(StoredAttrs(o), keys), keys),
        lifecycle := Marshal(Waiting(Pending(o), now))))
  }

  lemma AdvanceRemaining(o: Object, now: int)
    requires Sound(o) && Managed(o)
    ensures After(Some(o), Advance(Some(o), now)) == Remaining(o, now)
  {
    hide Advance, KeysOf, PendingMap, StoredAttrs, Layout, Marshal, ValidText;
    AdvanceMeaning(o, now);
    NormalViews(o);
    KeysNonEmpty(o.endpoints);
    var keys := Keys(o) - Expired(o, now);
    if Expired(o, now) == {} {
      assert keys == Keys(o) && Waiting(Pending(o), now) == Pending(o);
      assert Restrict(StoredAttrs(o), keys) == StoredAttrs(o);
    } else {
      assert Keys(o) == Expired(o, now) ==> keys == {};
    }
  }

  /** `Advance` is `build` fed with the object's own publication: the same object, or nothing. */
  lemma AdvanceIsBuild(hash16: string -> string, id: Identity, provider: string, o: Object, now: int)
    requires Sound(o) && Tagged(hash16, id, provider, o)
    ensures
      var built := Build(hash16, id, provider, OwnPublication(provider, o), Some(o), now);
      match After(Some(o), Advance(Some(o), now))
      case None => built == Nothing
      case Some(u) => built == Built(u)
  {
    var pub := OwnPublication(provider, o);
    var keys := Keys(o) - Expired(o, now);
    var kept := Waiting(Pending(o), now);
    LabelsOwn(hash16, id, provider, o, o.labels);
    AdvanceRemaining(o, now);
    OwnDesires(provider, o);
    OwnKept(Keys(o), Pending(o), o.delay.nanos, now);
    OwnChosen(provider, o, keys);
    assert Kept(pub, Some(o), now) == kept;
    BuildValue(hash16, id, provider, pub, o, now, keys, kept, Restrict(StoredAttrs(o), keys));
    TaggedAssemble(hash16, id, provider, o, pub, Layout(Restrict(StoredAttrs(o), keys), keys), Marshal(kept));
  }

  /** Without assuming how the object is tagged: the same records, pending list and delay, or deletion. */
  lemma AdvanceRefinesBuild(hash16: string -> string, id: Identity, provider: string, o: Object, now: int)
    requires Sound(o) && Managed(o)
    ensures
      var built := Build(hash16, id, provider, OwnPublication(provider, o), Some(o), now);
      match After(Some(o), Advance(Some(o), now))
      case None => built == Nothing
      case Some(u) =>
        built.Built? && built.obj.endpoints == u.endpoints && built.obj.lifecycle == u.lifecycle
            && built.obj.delay == u.delay
  {
    var pub := OwnPublication(provider, o);
    var keys := Keys(o) - Expired(o, now);
    var kept := Waiting(Pending(o), now);
    AdvanceRemaining(o, now);
    OwnDesires(provider, o);
    OwnKept(Keys(o), Pending(o), o.delay.nanos, now);
    OwnChosen(provider, o, keys);
    assert Kept(pub, Some(o), now) == kept;
    hide Advance, Kept, Waiting, Keys, Pending, Expired, StoredAttrs, Restrict, Layout, Marshal, Labels;
    hide Annotations, WithoutSourceOwner;
    BuildValue(hash16, id, provider, pub, o, now, keys, kept, Restrict(StoredAttrs(o), keys));
  }
}
