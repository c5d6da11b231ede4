/** The lifecycle controller: retire, wait or advance one object, and when to come back. */
module Reconcile {
  import opened Ordering
  import opened Endpoints
  import opened Lifecycle
  import opened Objects
  import opened WriterSpec
  import opened WriterLaws
  import opened AdvanceLaws
  import opened Acceptance
  import opened Advancer
  import opened Drain
  import A = Apply
  import opened ApplyLaws

  /** How a reconcile ends: with a requeue delay (zero for none), or with an error. */
  datatype Result = Requeue(after: int) | Terminal | Failed

  /** The source is gone, or is a Gateway route while Gateway support is off. */
  predicate MustRetire(id: Identity, gatewayEnabled: bool, uid: Option<string>) {
    (IsGatewayRoute(id.kind) && !gatewayEnabled) || uid.None?
  }

  /** The decision: nothing to do, invalid state, wait for the source controller, retire, or advance. */
  datatype Decision = Ignore | Reject | Wait | Retire | Continue

  ghost function Decide(hash16: string -> string, current: Option<Object>, gatewayEnabled: bool,
                        uid: Identity -> Option<string>): Decision {
    if current.None? || !Managed(current.value) then Ignore
    else if !LifecycleAccepts(hash16, current.value) then Reject
    else
      var id := RebuiltIdentity(current.value);
      if MustRetire(id, gatewayEnabled, uid(id)) then Retire
      else if uid(id).value != id.uid then Wait
      else Continue
  }

  /** What `Advance` answers for an object: its delay, or an error. */
  ghost predicate Answers(current: Option<Object>, now: int, r: Result) {
    if current.Some? && Managed(current.value) then
      if Readable(current.value) then r.Requeue? && IsNext(Pending(current.value), now, r.after) else r.Failed?
    else r == Requeue(0)
  }

  method AdvanceObject(w: A.Writer, key: A.Key, now: int) returns (r: Result)
    modifies w
    ensures
      A.NoRepeats(old(w.objects)) ==> w.objects == A.Write(old(w.objects), key, Advance(A.At(old(w.objects), key), now))
    ensures Answers(A.At(old(w.objects), key), now, r)
  {
    hide Advance, Readable, KeysOf, PendingMap, DistinctIds;
    var current := A.At(w.objects, key);
    var a, next := AdvanceAttempt(current, now, 0);
    if current.Some? && Managed(current.value) && Readable(current.value) {
      LeastFromZero(Pending(current.value), now, next);
    }
    if a.Fail? {
      AdvanceFails(current, now);
      return Failed;
    }
    w.objects := A.Write(w.objects, key, a);
    r := Requeue(next);
  }

  lemma AdvanceFails(current: Option<Object>, now: int)
    requires current.Some? && Managed(current.value) && !Readable(current.value)
    ensures Advance(current, now) == Fail
  {
  }

  /** How one reconcile takes the store to another, with the answer it gives. */
  ghost predicate Reconciled(hash16: string -> string, key: A.Key, gatewayEnabled: bool,
                             uid: Identity -> Option<string>, clock: string -> int, now: int, before: A.Stored,
                             after: A.Stored, r: Result)
  {
    var current := A.At(before, key);
    match Decide(hash16, current, gatewayEnabled, uid)
    case Ignore => r == Requeue(0) && after == before
    case Reject => r == Terminal && after == before
    case Wait => r == Requeue(0) && after == before
    case Continue =>
      A.NoRepeats(before) ==> Answers(current, now, r) && after == A.Write(before, key, Advance(current, now))
    case Retire =>
      A.NoRepeats(before) ==>
        var applied := A.ApplyAll(hash16, RebuiltIdentity(current.value), [], before, clock);
        if applied.ok then
          && Answers(A.At(applied.objects, key), now, r)
          && after == A.Write(applied.objects, key, Advance(A.At(applied.objects, key), now))
        else r == Failed && after == applied.objects
  }

  method LifecycleReconcile(w: A.Writer, hash16: string -> string, key: A.Key, gatewayEnabled: bool,
                            uid: Identity -> Option<string>, clock: string -> int, now: int) returns (r: Result)
    modifies w
    ensures Reconciled(hash16, key, gatewayEnabled, uid, clock, now, old(w.objects), w.objects, r)
  {
    hide Advance, A.ApplyAll, A.NoRepeats, ValidText, ObjectName;
    var current := A.At(w.objects, key);
    if current.None? || Lookup(current.value.labels, ManagedBy) != MANAGED_BY_VALUE {
      return Requeue(0);
    }
    var o := current.value;
    var pending := ParseLifecycle(o.lifecycle);
    if pending.None? {
      return Terminal;
    }
    var id := RebuiltIdentity(o);
    if ApiVersionFor(id.kind).None? {
      return Terminal;
    }
    var provider := Lookup(o.labels, Provider);
    if id.namespace == "" || id.name == "" || id.uid == "" || provider == "" || o.namespace != id.namespace
       || Lookup(o.labels, SourceKeyLabel) != SourceKey(hash16, id) || o.name != ObjectName(hash16, id, provider)
    {
      return Terminal;
    }
    var retire := IsGatewayRoute(id.kind) && !gatewayEnabled;
    if !retire {
      var found := uid(id);
      if found.None? {
        retire := true;
      } else if found.value != id.uid {
        return Requeue(0);
      }
    }
    hide LifecycleAccepts, Answers;
    if retire {
      var ok := w.Apply(hash16, id, [], clock);
      if !ok {
        return Failed;
      }
    }
    r := AdvanceObject(w, key, now);
  }

  /** `Apply` with no publication, seen from one object of the source: `applyOne` with nothing desired. */
  lemma RetireApplies(hash16: string -> string, key: A.Key, objects: A.Stored, clock: string -> int)
    requires key in objects && LifecycleAccepts(hash16, objects[key])
    requires
      var id := RebuiltIdentity(objects[key]);
      && key == A.KeyFor(hash16, id, Lookup(objects[key].labels, Provider))
      && A.Distinguished(hash16, id, A.ListedProviders(hash16, id, objects))
      && A.ApplyAll(hash16, id, [], objects, clock).ok
    ensures
      var id := RebuiltIdentity(objects[key]);
      var p := Lookup(objects[key].labels, Provider);
      var current := A.At(objects, key);
      A.At(A.ApplyAll(hash16, id, [], objects, clock).objects, key)
      == After(current, ApplyOne(hash16, id, p, ZERO_PUBLICATION, false, current, clock(p)))
  {
    var id := RebuiltIdentity(objects[key]);
    var provider := Lookup(objects[key].labels, Provider);
    var providers := A.ListedProviders(hash16, id, objects);
    ListedHere(hash16, key, objects, id, provider);
    hide A.Fold, A.GoodListing, A.OneEach, A.Distinguished, A.ListedProviders, ApplyOne;
    hide LifecycleAccepts, SortedStrings, RebuiltIdentity, A.KeyFor;
    assert A.Providers(hash16, id, [], objects) == providers;
    var list := SortedStrings(providers);
    SortedStringsLists(providers);
    A.ListedIsolated(hash16, id, providers);
    A.FoldExact(hash16, id, A.Desired([]), objects, list, clock);
    assert provider in list;
    var i :| 0 <= i < |list| && list[i] == provider;
    var applied := A.Fold(hash16, id, A.Desired([]), objects, list, clock).objects;
    assert A.DoneFor(hash16, id, A.Desired([]), objects, list[i], clock, applied);
    A.OneIs(hash16, id, A.Desired([]), provider, A.At(objects, key), clock(provider));
  }

  lemma ListedHere(hash16: string -> string, key: A.Key, objects: A.Stored, id: Identity, provider: string)
    requires key in objects && LifecycleAccepts(hash16, objects[key]) && id == RebuiltIdentity(objects[key])
    requires provider == Lookup(objects[key].labels, Provider) && key == A.KeyFor(hash16, id, provider)
    ensures provider in A.ListedProviders(hash16, id, objects)
  {
    assert key in A.ListedKeys(hash16, id, objects);
  }

  /** The source is gone, or is a Gateway route while Gateway support is off. */
  ghost predicate SourceGone(id: Identity, gatewayEnabled: bool, uid: Identity -> Option<string>) {
    uid(id).None? || (id.kind in ["HTTPRoute", "TCPRoute", "UDPRoute"] && !gatewayEnabled)
  }

  /** An object whose source is gone, after the reconcile: left are the targets whose deadline is not reached,
      all of them pending, and the reconcile comes back exactly when the first of them is due; an object
      without targets is gone. */
  ghost predicate Retires(o: Object, t: int, now: int, after: Option<Object>, r: Result) {
    && (forall k :: after.Some? && k in Keys(after.value) <==> k in Keys(o) && Expiry(o, t, k) > now)
    && (after.None? ==> r == Requeue(0))
    && (after.Some? ==>
          && Pending(after.value).Keys == Keys(after.value) && Keys(after.value) != {}
          && r.Requeue? && r.after > 0
          && (forall k :: k in Keys(after.value) ==>
                Pending(after.value)[k] == Expiry(o, t, k) && now + r.after <= Expiry(o, t, k))
          && (exists k :: k in Keys(after.value) && now + r.after == Expiry(o, t, k)))
  }

  /** An object whose source is the one it was published for, after the reconcile: exactly the due targets are
      gone and the reconcile comes back by the first remaining deadline. */
  ghost predicate Continues(o: Object, now: int, after: Option<Object>, r: Result) {
    && (forall k :: after.Some? && k in Keys(after.value) <==> k in Keys(o) && !Due(o, now, k))
    && (after.None? ==> Active(o) == {})
    && (after.Some? ==> Active(after.value) == Active(o))
    && (after.Some? ==> after.value == o.(endpoints := after.value.endpoints, lifecycle := after.value.lifecycle))
    && (forall k :: after.Some? && k in Pending(after.value) <==> k in Pending(o) && !Due(o, now, k))
    && (forall k :: after.Some? && k in Pending(after.value) && k in Pending(o) ==>
          Pending(after.value)[k] == Pending(o)[k])
    && r.Requeue? && (r.after > 0 <==> exists k :: k in Pending(o) && !Due(o, now, k))
    && (forall k :: k in Pending(o) && !Due(o, now, k) ==> now + r.after <= Pending(o)[k])
  }

  ghost predicate Due(o: Object, now: int, k: TargetKey) { k in Pending(o) && Pending(o)[k] <= now }

  lemma DeadlineIsDue(o: Object, t: int)
    requires o.delay.Delay?
    ensures AllDue(o, t).Keys == Keys(o)
    ensures forall k :: k in Keys(o) ==> AllDue(o, t)[k] == Expiry(o, t, k)
  {
    hide Keys, Pending;
  }

  lemma AnswersNext(current: Option<Object>, now: int, r: Result)
    requires Answers(current, now, r)
    requires current.Some? ==> Managed(current.value) && Readable(current.value)
    ensures r.Requeue? && IsNext(if current.Some? then Pending(current.value) else map[], now, r.after)
  {
  }

  /** The answer after the wake, from the answer to what `Apply` left. */
  lemma WakeRetires(hash16: string -> string, id: Identity, provider: string, o: Object, t: int, now: int, r: Result)
    requires Sound(o) && Owned(hash16, id, provider, o) && t <= now
    requires
      Answers(After(Some(o), ApplyOne(hash16, id, provider, ZERO_PUBLICATION, false, Some(o), t)), now, r)
    ensures Retires(o, t, now, Wake(hash16, id, provider, Some(o), t, now), r)
  {
    assert o.delay.Delay? && Readable(o);
    hide Wake, ApplyOne, Answers, Sound, Readable, Expiry, AllDue, Keys, Pending, Retires, Waiting;
    var applied := After(Some(o), ApplyOne(hash16, id, provider, ZERO_PUBLICATION, false, Some(o), t));
    RetireStep(hash16, id, provider, o, t);
    WakeStep(hash16, id, provider, o, t, now);
    WaitingTwice(AllDue(o, t), t, now);
    DeadlineIsDue(o, t);
    assert Waiting(map[], now) == map[] by { WaitingOfNone(now); }
    if applied.Some? { RetiringReads(hash16, id, provider, applied.value); }
    AnswersNext(applied, now, r);
    if Wake(hash16, id, provider, Some(o), t, now).Some? {
      RetiringHasKeys(hash16, id, provider, Wake(hash16, id, provider, Some(o), t, now).value);
    }
    LeftRetires(o, t, now, AllDue(o, t), Wake(hash16, id, provider, Some(o), t, now), r);
  }

  lemma WaitingOfNone(now: int)
    ensures Waiting(map[], now) == map[]
  {
  }

  lemma RetiringReads(hash16: string -> string, id: Identity, provider: string, o: Object)
    requires Retiring(hash16, id, provider, o)
    ensures Managed(o) && Readable(o)
  {
  }

  lemma RetiringHasKeys(hash16: string -> string, id: Identity, provider: string, o: Object)
    requires Retiring(hash16, id, provider, o)
    ensures Pending(o).Keys == Keys(o) && Keys(o) != {}
  {
    RetiringHasPending(hash16, id, provider, o);
  }

  lemma LeftRetires(o: Object, t: int, now: int, due: map<TargetKey, int>, after: Option<Object>, r: Result)
    requires due.Keys == Keys(o) && forall k :: k in Keys(o) ==> due[k] == Expiry(o, t, k)
    requires r.Requeue? && IsNext(due, now, r.after)
    requires
      match after
      case None => Waiting(due, now) == map[]
      case Some(x) => Pending(x) == Waiting(due, now) && Pending(x).Keys == Keys(x) && Keys(x) != {}
    ensures Retires(o, t, now, after, r)
  {
    hide Expiry, Keys, Pending;
    NextWakes(due, now, r.after);
    forall k ensures k in Waiting(due, now) <==> k in Keys(o) && Expiry(o, t, k) > now { }
  }

  lemma AdvanceContinues(o: Object, now: int, r: Result)
    requires Sound(o) && Managed(o) && Answers(Some(o), now, r)
    ensures Continues(o, now, After(Some(o), Advance(Some(o), now)), r)
  {
    hide Advance, Answers, Sound, KeysOf, PendingMap, IsAdvanced, Expired, Continues, ValidText;
    SoundReads(o);
    PendingFilled(o);
    AdvanceMeaning(o, now);
    AnswersNext(Some(o), now, r);
    match Advance(Some(o), now) {
      case Update(u) => IsLeft(o, now, u);
      case Delete => AllLeft(o, now);
      case _ => NoneLeft(o, now);
    }
    hide Keys, Pending;
    LeftContinues(o, now, After(Some(o), Advance(Some(o), now)), r);
  }

  lemma SoundReads(o: Object)
    requires Sound(o)
    ensures Readable(o)
  {
  }

  /** What `Advance` leaves, whether it writes or not. */
  ghost predicate Leaves(o: Object, now: int, u: Object) {
    && (forall k :: k in Keys(u) <==> k in Keys(o) && !Due(o, now, k))
    && Pending(u) == Waiting(Pending(o), now)
    && u == o.(endpoints := u.endpoints, lifecycle := u.lifecycle)
  }

  lemma IsLeft(o: Object, now: int, u: Object)
    requires IsAdvanced(o, now, u)
    ensures Leaves(o, now, u)
  {
    hide KeysOf, PendingMap, Marshal, NormalForm, StoredAttrs, Layout, ValidText, Keys, Pending;
  }

  lemma NoneLeft(o: Object, now: int)
    requires Expired(o, now) == {}
    ensures Leaves(o, now, o)
  {
    hide Keys, Pending;
    forall k ensures !Due(o, now, k) { assert k !in Expired(o, now); }
    assert forall k :: k in Pending(o) ==> !Due(o, now, k);
    assert Waiting(Pending(o), now) == Pending(o);
  }

  lemma AllLeft(o: Object, now: int)
    requires Keys(o) == Expired(o, now)
    ensures forall k :: k in Keys(o) ==> Due(o, now, k)
  {
    hide Keys, Pending;
  }

  lemma LeftContinues(o: Object, now: int, after: Option<Object>, r: Result)
    requires r.Requeue? && IsNext(Pending(o), now, r.after) && forall k :: k in Pending(o) ==> k in Keys(o)
    requires
      match after
      case None => forall k :: k in Keys(o) ==> Due(o, now, k)
      case Some(u) => Leaves(o, now, u)
    ensures Continues(o, now, after, r)
  {
    hide Keys, Pending;
    NextWakes(Pending(o), now, r.after);
    hide IsNext;
    assert forall k :: k in Waiting(Pending(o), now) <==> k in Pending(o) && !Due(o, now, k);
  }

  /** The store and the object a reconcile is about: an accepted object under its own name, in a store that
      is well kept for its source. */
  ghost predicate Reconcilable(hash16: string -> string, key: A.Key, providers: set<string>, objects: A.Stored) {
    && key in objects && Sound(objects[key]) && LifecycleAccepts(hash16, objects[key]) && A.NoRepeats(objects)
    && var id := RebuiltIdentity(objects[key]);
    && key == A.KeyFor(hash16, id, Lookup(objects[key].labels, Provider))
    && A.WellKept(hash16, id, providers, objects) && A.Distinguished(hash16, id, providers)
    && Concerned(hash16, id, [], providers, objects)
  }

  lemma ListedFew(hash16: string -> string, id: Identity, providers: set<string>, objects: A.Stored)
    requires A.Distinguished(hash16, id, providers) && Concerned(hash16, id, [], providers, objects)
    ensures A.Distinguished(hash16, id, A.ListedProviders(hash16, id, objects))
  {
    hide A.Mine, A.KeyFor;
    assert A.ListedProviders(hash16, id, objects) <= providers;
  }

  lemma LabelledOwn(hash16: string -> string, o: Object)
    requires LifecycleAccepts(hash16, o)
    ensures Owned(hash16, RebuiltIdentity(o), Lookup(o.labels, Provider), o)
  {
    hide SourceKey, ObjectName, RebuiltIdentity;
  }

  lemma DecidesRetire(hash16: string -> string, o: Object, gatewayEnabled: bool, uid: Identity -> Option<string>)
    requires LifecycleAccepts(hash16, o) && SourceGone(RebuiltIdentity(o), gatewayEnabled, uid)
    ensures Decide(hash16, Some(o), gatewayEnabled, uid).Retire?
  {
    hide RebuiltIdentity, ObjectName, SourceKey, ValidText;
  }

  /** The retiring reconcile in its two parts. */
  lemma GoneSteps(hash16: string -> string, key: A.Key, gatewayEnabled: bool, uid: Identity -> Option<string>,
                  clock: string -> int, now: int, before: A.Stored, after: A.Stored, r: Result,
                  providers: set<string>)
    requires Reconcilable(hash16, key, providers, before)
    requires Reconciled(hash16, key, gatewayEnabled, uid, clock, now, before, after, r)
    requires SourceGone(RebuiltIdentity(before[key]), gatewayEnabled, uid)
    ensures
      var id, p := RebuiltIdentity(before[key]), Lookup(before[key].labels, Provider);
      var applied := A.ApplyAll(hash16, id, [], before, clock);
      && applied.ok && Applied(hash16, id, [], providers, clock, before, applied.objects)
      && A.At(applied.objects, key)
         == After(Some(before[key]),
                  ApplyOne(hash16, id, p, ZERO_PUBLICATION, false, Some(before[key]), clock(p)))
      && Answers(A.At(applied.objects, key), now, r)
      && after == A.Write(applied.objects, key, Advance(A.At(applied.objects, key), now))
  {
    var o, id, p := before[key], RebuiltIdentity(before[key]), Lookup(before[key].labels, Provider);
    hide Sound, LifecycleAccepts, A.NoRepeats, RebuiltIdentity, A.KeyFor, A.WellKept, A.Distinguished, Concerned;
    hide Decide, SourceGone, Answers, Advance, A.ApplyAll, Applied, ApplyOne, A.Mine, A.ListedProviders, A.Write, After;
    DecidesRetire(hash16, o, gatewayEnabled, uid);
    ApplyDoes(hash16, id, [], providers, clock, before);
    ListedFew(hash16, id, providers, before);
    RetireApplies(hash16, key, before, clock);
  }

  /** A GONE SOURCE, whether deleted or a route no longer supported: the object's targets all retire and the
      reconcile comes back when the first of them is due. */
  lemma GoneRetires(hash16: string -> string, key: A.Key, gatewayEnabled: bool, uid: Identity -> Option<string>,
                    clock: string -> int, now: int, before: A.Stored, after: A.Stored, r: Result,
                    providers: set<string>)
    requires Reconcilable(hash16, key, providers, before)
    requires Reconciled(hash16, key, gatewayEnabled, uid, clock, now, before, after, r)
    requires
      var id, p := RebuiltIdentity(before[key]), Lookup(before[key].labels, Provider);
      SourceGone(id, gatewayEnabled, uid) && clock(p) <= now
    ensures
      var id, p := RebuiltIdentity(before[key]), Lookup(before[key].labels, Provider);
      && Retires(before[key], clock(p), now, A.At(after, key), r)
      && A.At(after, key) == Wake(hash16, id, p, Some(before[key]), clock(p), now)
  {
    var o, id, p := before[key], RebuiltIdentity(before[key]), Lookup(before[key].labels, Provider);
    hide Sound, LifecycleAccepts, A.NoRepeats, RebuiltIdentity, A.KeyFor, A.WellKept, A.Distinguished, Concerned;
    hide Reconciled, SourceGone, Answers, Advance, A.ApplyAll, Applied, ApplyOne, Retires, After, A.Write, Owned;
    GoneSteps(hash16, key, gatewayEnabled, uid, clock, now, before, after, r, providers);
    LabelledOwn(hash16, o);
    WakeRetires(hash16, id, p, o, clock(p), now, r);
    var applied := A.ApplyAll(hash16, id, [], before, clock).objects;
    A.WriteAt(applied, key, Advance(A.At(applied, key), now), key);
  }

  /** And the rest of the store: the source's other objects are retired too, nothing else changes. */
  lemma GoneOthers(hash16: string -> string, key: A.Key, gatewayEnabled: bool, uid: Identity -> Option<string>,
                   clock: string -> int, now: int, before: A.Stored, after: A.Stored, r: Result,
                   providers: set<string>)
    requires Reconcilable(hash16, key, providers, before)
    requires Reconciled(hash16, key, gatewayEnabled, uid, clock, now, before, after, r)
    requires SourceGone(RebuiltIdentity(before[key]), gatewayEnabled, uid)
    ensures
      var id, p := RebuiltIdentity(before[key]), Lookup(before[key].labels, Provider);
      && (forall q :: q in providers && q != p ==>
            var other := A.KeyFor(hash16, id, q);
            Settled(ZERO_PUBLICATION, A.At(before, other), clock(q), A.At(after, other)))
      && (forall other :: (forall q :: q in providers ==> other != A.KeyFor(hash16, id, q)) ==>
            A.At(after, other) == A.At(before, other))
  {
    var id, p := RebuiltIdentity(before[key]), Lookup(before[key].labels, Provider);
    GoneSteps(hash16, key, gatewayEnabled, uid, clock, now, before, after, r, providers);
    OwnConcerned(hash16, key, providers, before);
    hide Sound, LifecycleAccepts, A.NoRepeats, RebuiltIdentity, A.KeyFor, A.WellKept, Concerned, Reconciled;
    hide SourceGone, Answers, Advance, A.ApplyAll, Settled, ApplyOne, After, A.Write, A.At;
    var applied := A.ApplyAll(hash16, id, [], before, clock).objects;
    var a := Advance(A.At(applied, key), now);
    forall other | other != key ensures A.At(after, other) == A.At(applied, other) {
      A.WriteAt(applied, key, a, other);
    }
    forall q ensures !Names([], q) { }
  }

  lemma OwnConcerned(hash16: string -> string, key: A.Key, providers: set<string>, objects: A.Stored)
    requires Reconcilable(hash16, key, providers, objects)
    ensures Lookup(objects[key].labels, Provider) in providers
  {
    hide Sound, A.WellKept, A.Distinguished, ValidText, ObjectName;
    assert A.Mine(hash16, RebuiltIdentity(objects[key]), key, objects[key]);
  }

  /** A SOURCE RECREATED under another UID: nothing is touched before its own controller has read it. */
  lemma RecreatedWaits(hash16: string -> string, key: A.Key, gatewayEnabled: bool, uid: Identity -> Option<string>,
                       clock: string -> int, now: int, before: A.Stored, after: A.Stored, r: Result)
    requires key in before && LifecycleAccepts(hash16, before[key])
    requires Reconciled(hash16, key, gatewayEnabled, uid, clock, now, before, after, r)
    requires
      var id := RebuiltIdentity(before[key]);
      !SourceGone(id, gatewayEnabled, uid) && uid(id) != Some(id.uid)
    ensures after == before && r == Requeue(0)
  {
    hide RebuiltIdentity, ObjectName, SourceKey, ValidText;
  }

  /** THE SOURCE STILL THERE: only what is due goes, and no other object changes. */
  lemma PresentContinues(hash16: string -> string, key: A.Key, gatewayEnabled: bool, uid: Identity -> Option<string>,
                         clock: string -> int, now: int, before: A.Stored, after: A.Stored, r: Result)
    requires key in before && Sound(before[key]) && LifecycleAccepts(hash16, before[key]) && A.NoRepeats(before)
    requires Reconciled(hash16, key, gatewayEnabled, uid, clock, now, before, after, r)
    requires
      var id := RebuiltIdentity(before[key]);
      !SourceGone(id, gatewayEnabled, uid) && uid(id) == Some(id.uid)
    ensures Continues(before[key], now, A.At(after, key), r)
    ensures forall other :: other != key ==> A.At(after, other) == A.At(before, other)
  {
    hide Sound, A.NoRepeats, Answers, Advance, RebuiltIdentity, ObjectName, SourceKey, ValidText, Continues, After;
    AdvanceContinues(before[key], now, r);
    var a := Advance(Some(before[key]), now);
    forall other ensures A.At(after, key) == After(A.At(before, key), a)
      ensures other != key ==> A.At(after, other) == A.At(before, other)
    {
      A.WriteAt(before, key, a, other);
    }
  }

  /** Metadata the lifecycle controller refuses: an unreadable pending list, a kind it does not know, an empty
      field, or a namespace, source key or name that is not that of the source the annotations name. */
  ghost predicate Inconsistent(hash16: string -> string, o: Object) {
    var kind, namespace := Lookup(o.annotations, SourceKind), Lookup(o.annotations, SourceNamespace);
    var name, uid := Lookup(o.annotations, SourceName), Lookup(o.annotations, SourceUID);
    var p := Lookup(o.labels, Provider);
    var version := if kind == "Ingress" then "networking.k8s.io/v1" else "gateway.networking.k8s.io/v1";
    var id := Identity(version, kind, namespace, name, uid);
    || !ValidText(o.lifecycle)
    || kind !in ["Ingress", "HTTPRoute", "TCPRoute", "UDPRoute"]
    || namespace == "" || name == "" || uid == "" || p == "" || o.namespace != namespace
    || Lookup(o.labels, SourceKeyLabel) != SourceKey(hash16, id) || o.name != ObjectName(hash16, id, p)
  }

  /** REFUSED, exactly: a managed object is called invalid if and only if its metadata is inconsistent, and is
      then left alone; an object that is not managed is ignored. No other outcome is terminal. */
  lemma TerminalExactly(hash16: string -> string, key: A.Key, gatewayEnabled: bool, uid: Identity -> Option<string>,
                        clock: string -> int, now: int, before: A.Stored, after: A.Stored, r: Result)
    requires Reconciled(hash16, key, gatewayEnabled, uid, clock, now, before, after, r)
    requires A.NoRepeats(before)
    ensures
      r.Terminal? <==>
      key in before && Lookup(before[key].labels, ManagedBy) == MANAGED_BY_VALUE && Inconsistent(hash16, before[key])
    ensures r.Terminal? ==> after == before
    ensures
      key !in before || Lookup(before[key].labels, ManagedBy) != MANAGED_BY_VALUE ==> after == before && r == Requeue(0)
  {
    if key in before && Managed(before[key]) { AcceptsConsistent(hash16, before[key]); }
    hide LifecycleAccepts, Inconsistent, Advance, A.ApplyAll, A.NoRepeats, Readable, IsNext, RebuiltIdentity;
  }

  lemma AcceptsConsistent(hash16: string -> string, o: Object)
    requires Managed(o)
    ensures LifecycleAccepts(hash16, o) <==> !Inconsistent(hash16, o)
  {
    hide SourceKey, ObjectName, ValidText;
  }
}
