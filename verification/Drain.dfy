/** Retirement to the end: the lifecycle controller's wake-ups of an object whose source is gone.
    Deadlines never move, the requested delay never oversleeps, and on-time wakes delete the object
    after at most as many wakes as it has targets.
 */
module Drain {
  import opened Ordering
  import opened Endpoints
  import opened Lifecycle
  import opened Objects
  import opened WriterSpec
  import opened WriterLaws
  import opened AdvanceLaws

  /** The delay `Advance` returns: the least remaining time, or zero when nothing waits. */
  ghost predicate IsNext(pending: map<TargetKey, int>, now: int, next: int) {
    var waiting := Waiting(pending, now);
    if waiting == map[] then next == 0
    else
      && (forall k :: k in waiting ==> next <= waiting[k] - now)
      && (exists k :: k in waiting && next == waiting[k] - now)
  }

  /** The delay is positive exactly while something stays pending; waking then is not after any
      remaining deadline, and at least one is due by then. */
  lemma NextWakes(pending: map<TargetKey, int>, now: int, next: int)
    requires IsNext(pending, now, next)
    ensures next > 0 <==> Waiting(pending, now) != map[]
    ensures forall k :: k in Waiting(pending, now) ==> now + next <= Waiting(pending, now)[k]
    ensures
      Waiting(pending, now) != map[] ==>
        exists k :: k in Waiting(pending, now) && Waiting(pending, now)[k] <= now + next
  {
  }

  /** One retiring reconcile of an object: `Apply` with no publication, then `Advance`. */
  ghost function Wake(hash16: string -> string, id: Identity, provider: string, current: Option<Object>, t: int,
                      u: int): Option<Object> {
    var retired := After(current, ApplyOne(hash16, id, provider, ZERO_PUBLICATION, false, current, t));
    After(retired, Advance(retired, u))
  }

  /** An object of the source, all of whose targets are being retired. */
  ghost predicate Retiring(hash16: string -> string, id: Identity, provider: string, o: Object) {
    Sound(o) && Owned(hash16, id, provider, o) && Pending(o).Keys == Keys(o)
  }

  /** The deadlines after dropping everything: running ones stay, new ones are `t` plus the delay. */
  ghost function AllDue(o: Object, t: int): map<TargetKey, int>
    requires o.delay.Delay?
  {
    map k | k in Keys(o) :: DueAt(Pending(o), o.delay.nanos, t, k)
  }

  lemma RetainedAll(keys: set<TargetKey>, pending: map<TargetKey, int>, delay: int, t: int)
    ensures Retained(keys, pending, delay, {}, t) == Waiting(map k | k in keys :: DueAt(pending, delay, t, k), t)
  {
  }

  /** Retiring an object keeps every running deadline, starts the others, and expires what is due. */
  lemma RetireStep(hash16: string -> string, id: Identity, provider: string, o: Object, t: int)
    requires Sound(o) && Owned(hash16, id, provider, o)
    ensures
      var after := After(Some(o), ApplyOne(hash16, id, provider, ZERO_PUBLICATION, false, Some(o), t));
      var left := Waiting(AllDue(o, t), t);
      match after
      case None => left == map[]
      case Some(r) => Retiring(hash16, id, provider, r) && Pending(r) == left
  {
    hide Build, Sound, Equivalent, KeysOf, PendingMap, Marshal, ValidText, Kept, AllDue, Waiting;
    var pub := ZERO_PUBLICATION;
    KeptWhenRetiring(o, t);
    BuildMeaning(hash16, id, provider, pub, Some(o), t);
    BuildSound(hash16, id, provider, pub, Some(o), t);
    var b := Build(hash16, id, provider, pub, Some(o), t);
    if b.Built? {
      BuiltIsAssembled(hash16, id, provider, pub, Some(o), t);
      LabelsOwn(hash16, id, provider, b.obj, o.labels);
      if Equivalent(o, b.obj) {
        EquivalentKeys(o, b.obj);
      }
    }
  }

  lemma KeptWhenRetiring(o: Object, t: int)
    requires Sound(o)
    ensures Kept(ZERO_PUBLICATION, Some(o), t) == Waiting(AllDue(o, t), t)
  {
    RetainedAll(Keys(o), Pending(o), o.delay.nanos, t);
  }

  lemma EquivalentKeys(a: Object, b: Object)
    requires Equivalent(a, b) && Sound(a) && Sound(b)
    ensures Keys(a) == Keys(b) && Pending(a) == Pending(b)
  {
    NormalViews(a);
    NormalViews(b);
  }

  lemma AdvanceStep(hash16: string -> string, id: Identity, provider: string, o: Object, u: int)
    requires Retiring(hash16, id, provider, o)
    ensures
      match After(Some(o), Advance(Some(o), u))
      case None => Waiting(Pending(o), u) == map[]
      case Some(r) => Retiring(hash16, id, provider, r) && Pending(r) == Waiting(Pending(o), u)
  {
    assert Managed(o) && Readable(o);
    hide Sound, Readable, Advance, KeysOf, PendingMap, Marshal, Layout, StoredAttrs, NormalForm;
    AdvanceMeaning(o, u);
    AdvanceSound(Some(o), u);
    WaitingSplit(Pending(o), u);
    if Advance(Some(o), u).Update? {
      OwnedAgain(hash16, id, provider, o, Advance(Some(o), u).obj);
    }
  }

  lemma OwnedAgain(hash16: string -> string, id: Identity, provider: string, o: Object, u: Object)
    requires Owned(hash16, id, provider, o) && u.labels == o.labels
    ensures Owned(hash16, id, provider, u)
  {
  }

  lemma WaitingSplit(pending: map<TargetKey, int>, u: int)
    ensures
      var expired := set k | k in pending && pending[k] <= u;
      && (expired == {} ==> Waiting(pending, u) == pending)
      && (pending.Keys == expired ==> Waiting(pending, u) == map[])
      && Waiting(pending, u).Keys == pending.Keys - expired
  {
    var expired := set k | k in pending && pending[k] <= u;
    forall k | k in pending && expired == {} ensures pending[k] > u {
      assert k !in expired;
    }
    forall k | k in pending && pending.Keys == expired ensures pending[k] <= u {
      assert k in expired;
    }
  }

  /** A wake in one picture: what is left are the targets not due at its second clock reading. */
  lemma WakeStep(hash16: string -> string, id: Identity, provider: string, o: Object, t: int, u: int)
    requires Sound(o) && Owned(hash16, id, provider, o) && t <= u
    ensures
      match Wake(hash16, id, provider, Some(o), t, u)
      case None => Waiting(AllDue(o, t), u) == map[]
      case Some(r) => Retiring(hash16, id, provider, r) && Pending(r) == Waiting(AllDue(o, t), u)
  {
    RetireStep(hash16, id, provider, o, t);
    var retired := After(Some(o), ApplyOne(hash16, id, provider, ZERO_PUBLICATION, false, Some(o), t));
    WaitingTwice(AllDue(o, t), t, u);
    if retired.Some? {
      AdvanceStep(hash16, id, provider, retired.value, u);
    }
    hide Advance, ApplyOne, Sound, Owned;
    assert Advance(None, u) == NoWrite by { AdvanceOfNothing(u); }
  }

  lemma AdvanceOfNothing(u: int)
    ensures Advance(None, u) == NoWrite
  {
  }

  lemma WaitingTwice(pending: map<TargetKey, int>, t: int, u: int)
    requires t <= u
    ensures Waiting(Waiting(pending, t), u) == Waiting(pending, u)
  {
  }

  /** RE-RUNNING RETIREMENT NEVER MOVES A DEADLINE. */
  lemma DeadlinesStay(hash16: string -> string, id: Identity, provider: string, o: Object, t: int, u: int, k: TargetKey)
    requires Sound(o) && Owned(hash16, id, provider, o) && t <= u && k in Pending(o)
    ensures
      var r := Wake(hash16, id, provider, Some(o), t, u);
      if Pending(o)[k] > u then r.Some? && k in Pending(r.value) && Pending(r.value)[k] == Pending(o)[k]
      else r.None? || k !in Keys(r.value)
  {
    WakeStep(hash16, id, provider, o, t, u);
    hide Wake, Sound, KeysOf, PendingMap, ValidText;
    assert k in Keys(o) by { PendingFilled(o); }
    assert k in AllDue(o, t) && AllDue(o, t)[k] == Pending(o)[k];
    if Pending(o)[k] > u { assert k in Waiting(AllDue(o, t), u); }
  }

  /** A wake at which some deadline of the object has passed. */
  ghost predicate OnTime(o: Object, u: int) { exists k :: k in Pending(o) && Pending(o)[k] <= u }

  /** The delay `Advance` returned is what makes the next wake on time: whatever it left pending, a wake at
      or after that delay finds some of it due, and one before finds nothing due. */
  lemma RequeueOnTime(before: map<TargetKey, int>, left: Object, now: int, next: int, u: int)
    requires IsNext(before, now, next) && Pending(left) == Waiting(before, now) && Pending(left) != map[]
    ensures next > 0 && (OnTime(left, u) <==> u >= now + next)
  {
    hide Pending;
    var k :| k in Waiting(before, now) && next == Waiting(before, now)[k] - now;
    assert u >= now + next ==> Pending(left)[k] <= u;
  }

  /** An on-time wake strictly shrinks a retiring object, or deletes it. */
  lemma WakeShrinks(hash16: string -> string, id: Identity, provider: string, o: Object, t: int, u: int)
    requires Retiring(hash16, id, provider, o) && t <= u && OnTime(o, u)
    ensures
      match Wake(hash16, id, provider, Some(o), t, u)
      case None => |Pending(o)| >= 1
      case Some(r) => Retiring(hash16, id, provider, r) && |Pending(r)| < |Pending(o)|
  {
    assert o.delay.Delay?;
    hide Wake, Sound, KeysOf, PendingMap;
    WakeStep(hash16, id, provider, o, t, u);
    assert AllDue(o, t) == Pending(o);
    var k :| k in Pending(o) && Pending(o)[k] <= u;
    ShrinkByOne(Pending(o), u, k);
  }

  lemma ShrinkByOne(pending: map<TargetKey, int>, u: int, k: TargetKey)
    requires k in pending && pending[k] <= u
    ensures |Waiting(pending, u)| < |pending|
  {
    var rest := pending.Keys - {k};
    assert Waiting(pending, u).Keys <= rest;
    SubsetSize(Waiting(pending, u).Keys, rest);
    assert |rest| == |pending.Keys| - 1;
  }

  /** The object after a list of wakes, each with its two clock readings. */
  ghost function Wakes(hash16: string -> string, id: Identity, provider: string, current: Option<Object>,
                       ws: seq<(int, int)>): Option<Object>
    decreases |ws|
  {
    if ws == [] then current
    else Wakes(hash16, id, provider, Wake(hash16, id, provider, current, ws[0].0, ws[0].1), ws[1..])
  }

  /** Every wake comes when asked for: readings in order, and some deadline has passed. */
  ghost predicate AllOnTime(hash16: string -> string, id: Identity, provider: string, current: Option<Object>,
                            ws: seq<(int, int)>)
    decreases |ws|
  {
    ws != [] && current.Some? ==>
      && ws[0].0 <= ws[0].1 && OnTime(current.value, ws[0].1)
      && AllOnTime(hash16, id, provider, Wake(hash16, id, provider, current, ws[0].0, ws[0].1), ws[1..])
  }

  lemma {:induction false} GoneStaysGone(hash16: string -> string, id: Identity, provider: string, ws: seq<(int, int)>)
    ensures Wakes(hash16, id, provider, None, ws) == None
  {
    if ws != [] {
      GoneStaysGone(hash16, id, provider, ws[1..]);
      AdvanceOfNothing(ws[0].1);
    }
  }

  /** DRAIN: the object of a retired source is gone after at most as many on-time wakes as it has
      pending targets. */
  lemma {:induction false} Drains(hash16: string -> string, id: Identity, provider: string, o: Object,
                                  ws: seq<(int, int)>)
    requires Retiring(hash16, id, provider, o)
    requires AllOnTime(hash16, id, provider, Some(o), ws) && |ws| >= |Pending(o)|
    ensures Wakes(hash16, id, provider, Some(o), ws) == None
    decreases |ws|
  {
    hide Retiring, Wake, Pending, OnTime;
    if ws == [] {
      RetiringHasPending(hash16, id, provider, o);
    } else {
      WakeShrinks(hash16, id, provider, o, ws[0].0, ws[0].1);
      match Wake(hash16, id, provider, Some(o), ws[0].0, ws[0].1)
      case None => GoneStaysGone(hash16, id, provider, ws[1..]);
      case Some(r) => Drains(hash16, id, provider, r, ws[1..]);
    }
  }

  lemma RetiringHasPending(hash16: string -> string, id: Identity, provider: string, o: Object)
    requires Retiring(hash16, id, provider, o)
    ensures |Pending(o)| >= 1
  {
    KeysNonEmpty(o.endpoints);
    assert Pending(o).Keys != {};
  }
}
