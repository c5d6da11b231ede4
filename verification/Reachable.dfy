/** Stores of concurrent runs. What `Apply` and the lifecycle controller need of a store holds of every store
    a run reaches, for every source, as long as the hash does not collide on the texts involved. */
module Reachable {
  import opened Lifecycle
  import opened Ordering
  import opened Endpoints
  import opened Objects
  import opened WriterSpec
  import opened WriterLaws
  import opened AdvanceLaws
  import opened History
  import opened Acceptance
  import opened Naming
  import opened Protocol
  import opened Drain
  import opened ApplyLaws
  import A = Apply
  import R = Reconcile
  import C = Cluster
  import L = ResolverLaws
  import Pipeline

  /** The objects of a world, as a map. */
  ghost predicate StoreOf(w: World, objects: A.Stored) {
    forall k :: A.At(objects, k) == Current(w, k)
  }

  /** No published identity holds a NUL, as no Kubernetes name does. */
  ghost predicate NulFreeOps(h: seq<Entry>) {
    forall i :: 0 <= i < |h| && h[i].op.Publish? ==> NulFree(h[i].op.id)
  }

  ghost predicate NulFreeWorld(w: World) { forall k :: NulFreeOps(Log(w, k)) }

  lemma AnnotatedIdentity(id: Identity, pub: Publication, before: map<AnnotationKey, string>, o: Object)
    requires o.annotations == Annotations(id, pub, before)
    ensures
      && Lookup(o.annotations, SourceKind) == id.kind && Lookup(o.annotations, SourceNamespace) == id.namespace
      && Lookup(o.annotations, SourceName) == id.name
  {
  }

  lemma PublishedNulFree(hash16: string -> string, op: Op, current: Option<Object>, now: int)
    requires op.Publish? && ApiVersionFor(op.id.kind) == Some(op.id.apiVersion) && NulFree(op.id)
    requires Build(hash16, op.id, op.provider, Effective(op), current, now).Built?
    ensures NulFree(RebuiltIdentity(Build(hash16, op.id, op.provider, Effective(op), current, now).obj))
  {
    hide Build, ObjectName, Labels, WithoutSourceOwner, Annotations, Effective, ApiVersionFor;
    var o := Build(hash16, op.id, op.provider, Effective(op), current, now).obj;
    BuiltIsAssembled(hash16, op.id, op.provider, Effective(op), current, now);
    var before := if current.Some? then current.value.annotations else map[];
    AnnotatedIdentity(op.id, Effective(op), before, o);
  }

  lemma SameAnnotations(a: Object, b: Object)
    requires
      forall k :: k in [SourceKind, SourceNamespace, SourceName, SourceUID] ==>
        Lookup(a.annotations, k) == Lookup(b.annotations, k)
    ensures RebuiltIdentity(a) == RebuiltIdentity(b)
  {
  }

  lemma StepNulFree(hash16: string -> string, namespace: string, name: string, op: Op, current: Option<Object>,
                    now: int)
    requires GoodIdentity(hash16, namespace, name, op) && (op.Publish? ==> NulFree(op.id))
    requires current.Some? ==> NulFree(RebuiltIdentity(current.value))
    requires Writes(Step(hash16, op, current, now))
    ensures
      var after := After(current, Step(hash16, op, current, now));
      after.Some? ==> NulFree(RebuiltIdentity(after.value))
  {
    hide Build, Equivalent, NulFree, RebuiltIdentity, Owned, Layout, Marshal, Readable;
    match op
    case Publish(id, provider, _, _) =>
      if Build(hash16, id, provider, Effective(op), current, now).Built? {
        PublishedNulFree(hash16, op, current, now);
      }
    case Expire =>
      var after := After(current, Advance(current, now));
      if after.Some? { SameAnnotations(current.value, after.value); }
    case Touch(o) => SameAnnotations(current.value, o);
  }

  lemma {:induction false} AlwaysNulFree(hash16: string -> string, namespace: string, name: string, h: seq<Entry>,
                                         n: nat)
    requires Serial(hash16, h) && GoodIdentities(hash16, namespace, name, h) && NulFreeOps(h) && n <= |h|
    ensures Before(h, n).Some? ==> NulFree(RebuiltIdentity(Before(h, n).value))
  {
    hide Step, GoodIdentity, NulFree, RebuiltIdentity;
    if n > 0 {
      AlwaysNulFree(hash16, namespace, name, h, n - 1);
      assert CommittedAt(hash16, h, n - 1) && h[n - 1] in h;
      StepNulFree(hash16, namespace, name, h[n - 1].op, Before(h, n - 1), h[n - 1].clock);
    }
  }

  /** What every object of a run is. */
  lemma StoredObject(hash16: string -> string, run: seq<World>, n: nat, key: ObjectKey)
    requires Run(hash16, run) && n < |run| && NulFreeWorld(run[n]) && Current(run[n], key).Some?
    ensures
      var o := Current(run[n], key).value;
      Sound(o) && Identified(hash16, key.namespace, key.name, o) && NulFree(RebuiltIdentity(o))
  {
    LogGood(hash16, run, n, key);
    hide Run, Sound, Identified, NulFree, RebuiltIdentity, Serial, GoodOps, GoodIdentities, NulFreeOps;
    var h := Log(run[n], key);
    AlwaysSound(hash16, h, |h|);
    AlwaysIdentified(hash16, key.namespace, key.name, h, |h|);
    AlwaysNulFree(hash16, key.namespace, key.name, h, |h|);
  }

  function NameText(id: Identity, provider: string): string { IdentityValue(id) + [NUL] + provider }

  predicate Apart(hash16: string -> string, x: string, y: string) { hash16(x) == hash16(y) ==> x == y }

  /** The hash does not collide on the texts one source and one object bring to it. */
  ghost predicate ApartFrom(hash16: string -> string, id: Identity, providers: set<string>, o: Object) {
    var other, q := RebuiltIdentity(o), Lookup(o.labels, Provider);
    && Apart(hash16, IdentityValue(id), IdentityValue(other))
    && |hash16(NameText(other, q))| == 16
    && forall p :: p in providers ==> Apart(hash16, NameText(id, p), NameText(other, q))
  }

  /** No collision between the source with these providers and the objects of the store, nor among the names
      of the source itself. */
  ghost predicate NoCollision(hash16: string -> string, id: Identity, providers: set<string>, objects: A.Stored) {
    && (forall k :: k in objects ==> ApartFrom(hash16, id, providers, objects[k]))
    && (forall p :: p in providers ==> |hash16(NameText(id, p))| == 16)
    && (forall p, q :: p in providers && q in providers ==> Apart(hash16, NameText(id, p), NameText(id, q)))
  }

  /** One source key, one source. */
  lemma SourceOfKey(hash16: string -> string, id: Identity, other: Identity)
    requires NulFree(id) && NulFree(other) && Apart(hash16, IdentityValue(id), IdentityValue(other))
    requires SourceKey(hash16, id) == SourceKey(hash16, other)
    ensures other == id.(uid := other.uid)
  {
    IdentityTextInjective(id, "", other, "");
  }

  lemma BelongsTo(hash16: string -> string, id: Identity, other: Identity, p: string, key: ObjectKey, o: Object)
    requires Sound(o) && Identified(hash16, key.namespace, key.name, o) && other == RebuiltIdentity(o)
    requires other == id.(uid := other.uid) && p == Lookup(o.labels, Provider)
    ensures A.Belongs(hash16, id, p, o) && key == A.KeyFor(hash16, id, p) && p != ""
  {
    SameText(id, other, p);
    hide Sound, NamePrefix, IdentityValue;
  }

  /** A listed object is of the source, under the name of its provider. */
  lemma ListedBelongs(hash16: string -> string, id: Identity, key: ObjectKey, o: Object)
    requires Sound(o) && Identified(hash16, key.namespace, key.name, o) && NulFree(RebuiltIdentity(o)) && NulFree(id)
    requires Apart(hash16, IdentityValue(id), IdentityValue(RebuiltIdentity(o))) && A.Mine(hash16, id, key, o)
    ensures
      var p := Lookup(o.labels, Provider);
      A.Belongs(hash16, id, p, o) && key == A.KeyFor(hash16, id, p) && p != ""
  {
    var other := RebuiltIdentity(o);
    SourceOfKey(hash16, id, other);
    hide Sound, NulFree, RebuiltIdentity, A.Belongs, ObjectName;
    BelongsTo(hash16, id, other, Lookup(o.labels, Provider), key, o);
  }

  /** An object under a name of the source is of the source. */
  lemma NamedBelongs(hash16: string -> string, id: Identity, p: string, key: ObjectKey, o: Object)
    requires Sound(o) && Identified(hash16, key.namespace, key.name, o) && NulFree(RebuiltIdentity(o)) && NulFree(id)
    requires key == A.KeyFor(hash16, id, p) && |hash16(NameText(id, p))| == 16
    requires
      var text := NameText(RebuiltIdentity(o), Lookup(o.labels, Provider));
      |hash16(text)| == 16 && Apart(hash16, NameText(id, p), text)
    ensures A.Belongs(hash16, id, p, o)
  {
    var other, q := RebuiltIdentity(o), Lookup(o.labels, Provider);
    NamesIsolate(hash16, id, p, other, q);
    hide Sound, NulFree, RebuiltIdentity, A.Belongs, ObjectName;
    BelongsTo(hash16, id, other, p, key, o);
  }

  /** EVERY STORE A RUN REACHES IS WELL KEPT, for every source and any providers. */
  lemma StoreKept(hash16: string -> string, run: seq<World>, n: nat, objects: A.Stored, id: Identity,
                  providers: set<string>)
    requires Run(hash16, run) && n < |run| && NulFreeWorld(run[n]) && StoreOf(run[n], objects)
    requires NulFree(id) && NoCollision(hash16, id, providers, objects)
    ensures A.WellKept(hash16, id, providers, objects) && A.Distinguished(hash16, id, providers) && A.NoRepeats(objects)
  {
    hide Run, NulFreeWorld, Sound, Identified, NulFree, A.Belongs, ObjectName, A.Mine, RebuiltIdentity;
    forall k | k in objects
      ensures Sound(objects[k]) && Identified(hash16, k.namespace, k.name, objects[k])
      ensures NulFree(RebuiltIdentity(objects[k]))
    {
      assert A.At(objects, k) == Current(run[n], k);
      StoredObject(hash16, run, n, k);
    }
    forall k | k in A.ListedKeys(hash16, id, objects) ensures A.KeptAt(hash16, id, objects, k) {
      assert ApartFrom(hash16, id, providers, objects[k]);
      ListedBelongs(hash16, id, k, objects[k]);
    }
    forall p | p in providers && A.KeyFor(hash16, id, p) in objects
      ensures A.Belongs(hash16, id, p, objects[A.KeyFor(hash16, id, p)])
    {
      var k := A.KeyFor(hash16, id, p);
      assert ApartFrom(hash16, id, providers, objects[k]);
      NamedBelongs(hash16, id, p, k, objects[k]);
    }
    forall p, q | p in providers && q in providers && p != q
      ensures A.KeyFor(hash16, id, p) != A.KeyFor(hash16, id, q)
    {
      assert Apart(hash16, NameText(id, p), NameText(id, q));
      NamesIsolate(hash16, id, p, id, q);
    }
    forall k | k in objects ensures DistinctIds(objects[k].endpoints) { SoundDistinct(objects[k]); }
  }

  lemma SoundDistinct(o: Object)
    requires Sound(o)
    ensures DistinctIds(o.endpoints)
  {
    SortedIdsDistinct(o.endpoints);
  }

  /** THE LISTING of every source passes in every world of every run, and lists no provider twice. */
  lemma ListingAlwaysGood(hash16: string -> string, run: seq<World>, n: nat, objects: A.Stored, id: Identity)
    requires Run(hash16, run) && n < |run| && NulFreeWorld(run[n]) && StoreOf(run[n], objects)
    requires NulFree(id) && NoCollision(hash16, id, {}, objects)
    ensures A.GoodListing(hash16, id, objects) && A.OneEach(hash16, id, objects)
  {
    hide Run, NulFreeWorld, StoreOf, NoCollision, NulFree;
    StoreKept(hash16, run, n, objects, id, {});
    A.KeptListing(hash16, id, {}, objects);
  }

  /** APPLY ON ANY REACHABLE STORE, with publications as the source controllers resolve them (or none, for a
      source that is gone), succeeds, and the same call again before any deadline writes nothing. */
  lemma ApplyAlwaysQuiet(hash16: string -> string, run: seq<World>, n: nat, objects: A.Stored, id: Identity,
                         c: C.State, pubs: seq<Publication>, first: string -> int, second: string -> int)
    requires Run(hash16, run) && n < |run| && NulFreeWorld(run[n]) && StoreOf(run[n], objects)
    requires NulFree(id) && NoCollision(hash16, id, A.Providers(hash16, id, pubs, objects), objects)
    requires L.GoodOutcome(c, pubs)
    ensures
      var r := A.ApplyAll(hash16, id, pubs, objects, first);
      && r.ok
      && (!A.Due(hash16, id, A.Providers(hash16, id, pubs, objects), r.objects, second) ==>
            A.ApplyAll(hash16, id, pubs, r.objects, second) == A.Outcome(true, r.objects))
  {
    hide Run, NulFreeWorld, StoreOf, NoCollision, NulFree, L.GoodOutcome, A.ApplyAll, A.Due, A.Providers;
    hide A.WellKept, A.Distinguished, A.GoodPublications, A.Desired, A.Targeted;
    StoreKept(hash16, run, n, objects, id, A.Providers(hash16, id, pubs, objects));
    Pipeline.ResolvedAccepted(c, pubs);
    A.ApplySucceeds(hash16, id, pubs, objects, first);
    if !A.Due(hash16, id, A.Providers(hash16, id, pubs, objects), A.ApplyAll(hash16, id, pubs, objects, first).objects,
        second) {
      A.ApplyQuiet(hash16, id, pubs, objects, first, second);
    }
  }

  /** APPLY ON ANY REACHABLE STORE DOES WHAT IT IS FOR: every publication is settled under the name of its
      provider, every other provider of the source is retired, and nothing else changes. */
  lemma ApplyAlwaysDoes(hash16: string -> string, run: seq<World>, n: nat, objects: A.Stored, id: Identity,
                        c: C.State, pubs: seq<Publication>, providers: set<string>, clock: string -> int)
    requires Run(hash16, run) && n < |run| && NulFreeWorld(run[n]) && StoreOf(run[n], objects)
    requires NulFree(id) && NoCollision(hash16, id, providers, objects)
    requires L.GoodOutcome(c, pubs) && Concerned(hash16, id, pubs, providers, objects)
    ensures
      var r := A.ApplyAll(hash16, id, pubs, objects, clock);
      r.ok && Applied(hash16, id, pubs, providers, clock, objects, r.objects)
  {
    hide Run, NulFreeWorld, StoreOf, NoCollision, NulFree, L.GoodOutcome, A.ApplyAll, Concerned, Applied;
    hide A.WellKept, A.Distinguished, A.GoodPublications, A.Desired, A.Targeted;
    StoreKept(hash16, run, n, objects, id, providers);
    Pipeline.ResolvedAccepted(c, pubs);
    ApplyDoes(hash16, id, pubs, providers, clock, objects);
  }

  /** A store of a run, and for one of its objects the source it names with the providers it may concern. */
  ghost predicate Observed(hash16: string -> string, run: seq<World>, n: nat, objects: A.Stored, key: ObjectKey,
                           providers: set<string>)
  {
    && Run(hash16, run) && n < |run| && NulFreeWorld(run[n]) && StoreOf(run[n], objects)
    && (key in objects ==>
          var id := RebuiltIdentity(objects[key]);
          NoCollision(hash16, id, providers, objects) && Concerned(hash16, id, [], providers, objects))
  }

  lemma AlwaysReconcilable(hash16: string -> string, run: seq<World>, n: nat, objects: A.Stored, key: ObjectKey,
                           providers: set<string>)
    requires Observed(hash16, run, n, objects, key, providers) && key in objects
    ensures R.Reconcilable(hash16, key, providers, objects)
  {
    assert A.At(objects, key) == Current(run[n], key);
    StoredObject(hash16, run, n, key);
    SoundAccepted(hash16, key, objects[key]);
    hide Run, NulFreeWorld, StoreOf, NoCollision, NulFree, RebuiltIdentity, A.WellKept, Concerned;
    hide A.Distinguished, Sound, Identified, A.NoRepeats, LifecycleAccepts;
    StoreKept(hash16, run, n, objects, RebuiltIdentity(objects[key]), providers);
  }

  lemma SoundAccepted(hash16: string -> string, key: ObjectKey, o: Object)
    requires Sound(o) && Identified(hash16, key.namespace, key.name, o)
    ensures LifecycleAccepts(hash16, o)
    ensures key == A.KeyFor(hash16, RebuiltIdentity(o), Lookup(o.labels, Provider))
  {
    hide RebuiltIdentity, ObjectName, SourceKey;
  }

  /** THE LIFECYCLE CONTROLLER ON ANY REACHABLE STORE, from the source it looks up and the fields of the object:
      a gone source retires every target, a recreated one is left alone, a present one only expires what is
      due. It never fails and never calls the object invalid. */
  lemma ReconcileAlways(hash16: string -> string, run: seq<World>, n: nat, key: ObjectKey, providers: set<string>,
                        gatewayEnabled: bool, uid: Identity -> Option<string>, clock: string -> int, now: int,
                        before: A.Stored, after: A.Stored, r: R.Result)
    requires Observed(hash16, run, n, before, key, providers) && key in before
    requires clock(Lookup(before[key].labels, Provider)) <= now
    requires R.Reconciled(hash16, key, gatewayEnabled, uid, clock, now, before, after, r)
    ensures
      var o, id := before[key], RebuiltIdentity(before[key]);
      && (R.SourceGone(id, gatewayEnabled, uid) ==>
            R.Retires(o, clock(Lookup(o.labels, Provider)), now, A.At(after, key), r))
      && (!R.SourceGone(id, gatewayEnabled, uid) && uid(id) != Some(id.uid) ==> after == before && r == R.Requeue(0))
      && (!R.SourceGone(id, gatewayEnabled, uid) && uid(id) == Some(id.uid) ==>
            && R.Continues(o, now, A.At(after, key), r)
            && forall other :: other != key ==> A.At(after, other) == A.At(before, other))
  {
    AlwaysReconcilable(hash16, run, n, before, key, providers);
    hide Observed, RebuiltIdentity, R.Reconciled, R.SourceGone, R.Retires, R.Continues, A.At;
    hide Sound, LifecycleAccepts, A.NoRepeats, A.WellKept, A.Distinguished, Concerned, A.KeyFor;
    var id := RebuiltIdentity(before[key]);
    if R.SourceGone(id, gatewayEnabled, uid) {
      R.GoneRetires(hash16, key, gatewayEnabled, uid, clock, now, before, after, r, providers);
    } else if uid(id) != Some(id.uid) {
      R.RecreatedWaits(hash16, key, gatewayEnabled, uid, clock, now, before, after, r);
    } else {
      R.PresentContinues(hash16, key, gatewayEnabled, uid, clock, now, before, after, r);
    }
  }

  /** Of a gone source every other object is retired by the same reconcile, and no object of another source
      is touched. */
  lemma GoneAlwaysRetiresAll(hash16: string -> string, run: seq<World>, n: nat, key: ObjectKey, providers: set<string>,
                             gatewayEnabled: bool, uid: Identity -> Option<string>, clock: string -> int, now: int,
                             before: A.Stored, after: A.Stored, r: R.Result)
    requires Observed(hash16, run, n, before, key, providers) && key in before
    requires R.Reconciled(hash16, key, gatewayEnabled, uid, clock, now, before, after, r)
    requires R.SourceGone(RebuiltIdentity(before[key]), gatewayEnabled, uid)
    ensures
      var id, p := RebuiltIdentity(before[key]), Lookup(before[key].labels, Provider);
      && (forall q :: q in providers && q != p ==>
            var other := A.KeyFor(hash16, id, q);
            Settled(ZERO_PUBLICATION, A.At(before, other), clock(q), A.At(after, other)))
      && (forall other :: (forall q :: q in providers ==> other != A.KeyFor(hash16, id, q)) ==>
            A.At(after, other) == A.At(before, other))
  {
    hide Observed, RebuiltIdentity, R.Reconciled, R.SourceGone, R.Reconcilable, A.At, Settled, A.KeyFor;
    AlwaysReconcilable(hash16, run, n, before, key, providers);
    R.GoneOthers(hash16, key, gatewayEnabled, uid, clock, now, before, after, r, providers);
  }

  /** A GONE SOURCE ON ANY REACHABLE STORE: what the reconcile leaves under the key is one wake of the drain. */
  lemma RetireAlwaysWakes(hash16: string -> string, run: seq<World>, n: nat, key: ObjectKey, providers: set<string>,
                          gatewayEnabled: bool, uid: Identity -> Option<string>, clock: string -> int, now: int,
                          before: A.Stored, after: A.Stored, r: R.Result)
    requires Observed(hash16, run, n, before, key, providers) && key in before
    requires clock(Lookup(before[key].labels, Provider)) <= now
    requires R.Reconciled(hash16, key, gatewayEnabled, uid, clock, now, before, after, r)
    requires R.SourceGone(RebuiltIdentity(before[key]), gatewayEnabled, uid)
    ensures
      var id, p := RebuiltIdentity(before[key]), Lookup(before[key].labels, Provider);
      A.At(after, key) == Wake(hash16, id, p, Some(before[key]), clock(p), now)
  {
    hide Observed, RebuiltIdentity, R.Reconciled, R.SourceGone, R.Reconcilable, A.At, Wake, R.Retires;
    AlwaysReconcilable(hash16, run, n, before, key, providers);
    R.GoneRetires(hash16, key, gatewayEnabled, uid, clock, now, before, after, r, providers);
  }

  /** One reconcile of a key in a world of a run, the key's source being gone. */
  datatype Turn = Turn(world: nat, before: A.Stored, after: A.Stored, providers: set<string>, gatewayEnabled: bool,
                       uid: Identity -> Option<string>, clock: string -> int, now: int, r: R.Result)

  ghost predicate Turned(hash16: string -> string, run: seq<World>, key: ObjectKey, t: Turn) {
    && Observed(hash16, run, t.world, t.before, key, t.providers)
    && R.Reconciled(hash16, key, t.gatewayEnabled, t.uid, t.clock, t.now, t.before, t.after, t.r)
    && (key in t.before ==>
          && R.SourceGone(RebuiltIdentity(t.before[key]), t.gatewayEnabled, t.uid)
          && t.clock(Lookup(t.before[key].labels, Provider)) <= t.now)
  }

  /** Turns that come when they were asked for, with nobody else writing the object in between. */
  ghost predicate Turns(hash16: string -> string, run: seq<World>, key: ObjectKey, turns: seq<Turn>) {
    && (forall i :: 0 <= i < |turns| ==> Turned(hash16, run, key, turns[i]))
    && (forall i :: 0 < i < |turns| ==> Follows(key, turns[i - 1], turns[i]))
  }

  ghost predicate Follows(key: ObjectKey, t: Turn, u: Turn) {
    A.At(u.before, key) == A.At(t.after, key) && (t.r.Requeue? ==> u.now >= t.now + t.r.after)
  }

  /** The object left by a turn: gone, or all pending with at most so many targets and the next turn due at
      one of their deadlines. */
  ghost predicate Draining(key: ObjectKey, t: Turn, most: int) {
    var left := A.At(t.after, key);
    left.Some? ==>
      && Pending(left.value).Keys == Keys(left.value) && 0 < |Keys(left.value)| <= most
      && t.r.Requeue? && exists k :: k in Pending(left.value) && Pending(left.value)[k] == t.now + t.r.after
  }

  lemma GoneStays(hash16: string -> string, key: ObjectKey, t: Turn)
    requires key !in t.before
    requires R.Reconciled(hash16, key, t.gatewayEnabled, t.uid, t.clock, t.now, t.before, t.after, t.r)
    ensures key !in t.after
  {
  }

  lemma FirstTurn(hash16: string -> string, run: seq<World>, key: ObjectKey, t: Turn)
    requires Turned(hash16, run, key, t)
    ensures Draining(key, t, if key in t.before then |Keys(t.before[key])| else 0)
    ensures
      key in t.before ==>
        R.Retires(t.before[key], t.clock(Lookup(t.before[key].labels, Provider)), t.now, A.At(t.after, key), t.r)
  {
    hide Observed, R.Reconciled, R.SourceGone, RebuiltIdentity, Keys, Pending, R.Retires;
    if key in t.before {
      ReconcileAlways(hash16, run, t.world, key, t.providers, t.gatewayEnabled, t.uid, t.clock, t.now, t.before,
          t.after, t.r);
      RetiresDrains(key, t);
    } else {
      GoneStays(hash16, key, t);
    }
  }

  lemma RetiresDrains(key: ObjectKey, t: Turn)
    requires key in t.before
    requires
      R.Retires(t.before[key], t.clock(Lookup(t.before[key].labels, Provider)), t.now, A.At(t.after, key), t.r)
    ensures Draining(key, t, |Keys(t.before[key])|)
  {
    hide Keys, Pending, Expiry;
    if key in t.after {
      var o := t.before[key];
      assert A.At(t.after, key) == Some(t.after[key]);
      assert Keys(t.after[key]) <= Keys(o);
      SubsetSize(Keys(t.after[key]), Keys(o));
    }
  }

  /** A later turn takes at least one target. */
  lemma NextTurn(hash16: string -> string, run: seq<World>, key: ObjectKey, t: Turn, u: Turn, most: int)
    requires Turned(hash16, run, key, u) && Follows(key, t, u) && Draining(key, t, most)
    ensures Draining(key, u, most - 1)
  {
    hide Turned, R.Retires, Keys, Pending;
    FirstTurn(hash16, run, key, u);
    if key in u.before && key in u.after {
      var o := u.before[key];
      assert A.At(t.after, key) == Some(o);
      var k :| k in Pending(o) && Pending(o)[k] == t.now + t.r.after;
      DueLeaves(key, u, k);
      OneLess(Keys(u.after[key]), Keys(o), k);
    }
    hide Follows;
  }

  lemma OneLess(a: set<TargetKey>, b: set<TargetKey>, k: TargetKey)
    requires a <= b && k in b && k !in a
    ensures |a| < |b|
  {
    SubsetSize(a, b - {k});
  }

  lemma DueLeaves(key: ObjectKey, u: Turn, k: TargetKey)
    requires key in u.before && key in u.after && k in Pending(u.before[key]) && Pending(u.before[key])[k] <= u.now
    requires
      R.Retires(u.before[key], u.clock(Lookup(u.before[key].labels, Provider)), u.now, A.At(u.after, key), u.r)
    ensures k !in Keys(u.after[key]) && Keys(u.after[key]) <= Keys(u.before[key])
  {
    hide Keys, Pending;
    assert A.At(u.after, key) == Some(u.after[key]);
  }

  /** THE DRAIN, from the source being gone: on any run, as many timely reconciles as the object has targets
      and one more delete it. */
  lemma {:induction false} GoneDrains(hash16: string -> string, run: seq<World>, key: ObjectKey, turns: seq<Turn>)
    requires Turns(hash16, run, key, turns) && turns != [] && key in turns[0].before
    ensures Draining(key, turns[|turns| - 1], |Keys(turns[0].before[key])| + 1 - |turns|)
    ensures |turns| > |Keys(turns[0].before[key])| ==> key !in turns[|turns| - 1].after
    decreases |turns|
  {
    hide Turned, Follows, Keys;
    var n := |turns| - 1;
    if n == 0 {
      FirstTurn(hash16, run, key, turns[0]);
    } else {
      GoneDrains(hash16, run, key, turns[..n]);
      NextTurn(hash16, run, key, turns[n - 1], turns[n], |Keys(turns[0].before[key])| + 1 - n);
    }
  }
}
