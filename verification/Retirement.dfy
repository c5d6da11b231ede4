/** Retirement in concurrent runs: from the moment all targets of an object are being retired, and as long as
    every commit on it is a drop, an expiry or an edit of unrelated metadata, deadlines stay, records only
    shrink, and the object goes with the last deadline. */
module Retirement {
  import opened Lifecycle
  import opened Ordering
  import opened Endpoints
  import opened Objects
  import opened WriterSpec
  import opened WriterLaws
  import opened AdvanceLaws
  import opened History
  import opened Protocol

  /** An operation that publishes nothing: an unselected provider, an expiry, an edit. */
  predicate Retires(op: Op) { Effective(op).records == [] }

  ghost predicate RetiresFrom(h: seq<Entry>, m: nat) { forall i :: m <= i < |h| ==> Retires(h[i].op) }

  /** Every target is being retired, under one of the given deadlines. */
  ghost predicate AllRetiring(o: Object, deadlines: map<TargetKey, int>) {
    && Pending(o).Keys == Keys(o)
    && forall k :: k in Pending(o) ==> k in deadlines && Pending(o)[k] == deadlines[k]
  }

  ghost function KeySet(value: Option<Object>): set<TargetKey> { if value.Some? then Keys(value.value) else {} }

  function RecordsOf(value: Option<Object>): seq<Endpoint> { if value.Some? then value.value.endpoints else [] }

  /** One step on a retiring object: it stays retiring under the same deadlines, and its records change only
      when it loses a target. */
  ghost predicate Shrinks(o: Object, after: Option<Object>) {
    && KeySet(after) <= Keys(o)
    && (after.Some? ==> AllRetiring(after.value, Pending(o)))
    && (KeySet(after) == Keys(o) ==> RecordsOf(after) == o.endpoints)
  }

  lemma RestrictedToOwn(o: Object)
    requires NormalForm(o.endpoints)
    ensures ChosenAttrs([], Some(o), Keys(o)) == StoredAttrs(o)
  {
    NormalViews(o);
    hide StoredAttrs, Keys, NormalForm;
  }

  /** What is left are the targets not due, under their deadlines. */
  lemma LeftShrinks(o: Object, now: int, u: Object)
    requires AllRetiring(o, Pending(o)) && Keys(u) == Waiting(Pending(o), now).Keys
    requires Pending(u) == Waiting(Pending(o), now)
    requires Keys(u) != {} && (Keys(u) == Keys(o) ==> u.endpoints == o.endpoints)
    ensures Shrinks(o, Some(u)) && exists k :: k in Pending(o) && Pending(o)[k] > now
  {
    hide Keys, Pending;
    var k :| k in Keys(u);
    assert k in Waiting(Pending(o), now);
  }

  lemma GoneShrinks(o: Object)
    requires Keys(o) != {}
    ensures Shrinks(o, None)
  {
    hide Keys;
  }

  lemma KeptRetiring(pub: Publication, o: Object, now: int)
    requires Readable(o) && pub.records == [] && AllRetiring(o, Pending(o))
    ensures DesiredKeys(pub.records) == {} && Kept(pub, Some(o), now) == Waiting(Pending(o), now)
  {
    hide KeysOf, PendingMap, ValidText;
  }

  lemma DropShrinks(hash16: string -> string, id: Identity, provider: string, pub: Publication, o: Object, now: int)
    requires Sound(o) && pub.records == [] && AllRetiring(o, Pending(o))
    ensures
      var b := Build(hash16, id, provider, pub, Some(o), now);
      !b.Invalid? && Shrinks(o, if b.Built? then Some(b.obj) else None)
      && (b.Built? ==> exists k :: k in Pending(o) && Pending(o)[k] > now)
  {
    hide Build, Readable, StoredAttrs, Layout, Marshal, ValidText, ChosenAttrs, Keys, Pending, Shrinks;
    hide AllRetiring, Kept, NormalForm, Waiting;
    BuildMeaning(hash16, id, provider, pub, Some(o), now);
    KeptRetiring(pub, o, now);
    var b := Build(hash16, id, provider, pub, Some(o), now);
    if b.Built? {
      SameTargetsSameRecords(pub, o, now, b.obj);
      assert Keys(b.obj) != {} by { KeysOfObject(b.obj); }
      assert Keys(b.obj) == Waiting(Pending(o), now).Keys;
      LeftShrinks(o, now, b.obj);
    } else {
      assert Keys(o) != {} by { KeysOfObject(o); }
      GoneShrinks(o);
    }
  }

  lemma KeysOfObject(o: Object)
    requires NormalForm(o.endpoints) && o.endpoints != []
    ensures Keys(o) != {}
  {
    KeysNonEmpty(o.endpoints);
  }

  lemma SameTargetsSameRecords(pub: Publication, o: Object, now: int, u: Object)
    requires Sound(o) && pub.records == [] && IsBuilt(pub, Some(o), now, u)
    ensures Keys(u) == Keys(o) ==> u.endpoints == o.endpoints
  {
    RestrictedToOwn(o);
    NormalViews(o);
    NormalViews(u);
    hide Layout, StoredAttrs, ChosenAttrs, Keys, NormalForm, Readable, Marshal, Kept;
  }

  lemma ExpiredIsWaiting(o: Object, now: int)
    requires AllRetiring(o, Pending(o))
    ensures Keys(o) - Expired(o, now) == Waiting(Pending(o), now).Keys
  {
    hide Keys, Pending;
  }

  lemma ExpiryShrinks(o: Object, now: int)
    requires Sound(o) && Managed(o) && AllRetiring(o, Pending(o)) && Writes(Advance(Some(o), now))
    ensures
      var after := After(Some(o), Advance(Some(o), now));
      Shrinks(o, after) && (after.Some? ==> exists k :: k in Pending(o) && Pending(o)[k] > now)
  {
    hide Advance, Readable, StoredAttrs, Layout, Marshal, ValidText, Keys, Pending, Shrinks, Restrict;
    hide NormalForm, Waiting, Managed, AllRetiring;
    AdvanceMeaning(o, now);
    ExpiredIsWaiting(o, now);
    match Advance(Some(o), now)
    case Delete =>
      assert Keys(o) != {} by { KeysOfObject(o); }
      GoneShrinks(o);
    case Update(u) =>
      assert Keys(u) != Keys(o) by { ExpiredGo(o, now, u); }
      LeftShrinks(o, now, u);
  }

  lemma ExpiredGo(o: Object, now: int, u: Object)
    requires Readable(o) && Expired(o, now) != {} && Keys(u) == Keys(o) - Expired(o, now)
    ensures Keys(u) != Keys(o)
  {
    PendingFilled(o);
    hide Keys, Pending, Readable;
    var e :| e in Expired(o, now);
    assert e in Keys(o) && e !in Keys(u);
  }

  /** One committed step of a retirement. */
  lemma StepShrinks(hash16: string -> string, op: Op, o: Object, now: int)
    requires Sound(o) && Retires(op) && AllRetiring(o, Pending(o)) && Writes(Step(hash16, op, Some(o), now))
    ensures
      var after := After(Some(o), Step(hash16, op, Some(o), now));
      Shrinks(o, after) && (after.Some? && !op.Touch? ==> exists k :: k in Pending(o) && Pending(o)[k] > now)
  {
    hide Build, Sound, Shrinks, AllRetiring, Pending, Equivalent, Owned;
    match op
    case Publish(id, provider, _, _) => DropShrinks(hash16, id, provider, Effective(op), o, now);
    case Expire =>
      ExpireManaged(o, now);
      ExpiryShrinks(o, now);
    case Touch(c) => TouchShrinks(o, c);
  }

  lemma TouchShrinks(o: Object, c: Object)
    requires SameManaged(o, c) && AllRetiring(o, Pending(o))
    ensures Shrinks(o, Some(c))
  {
  }

  /** A committed drop starts a retirement: whatever it leaves is all being retired. */
  lemma DropStarts(hash16: string -> string, h: seq<Entry>, i: nat)
    requires Serial(hash16, h) && GoodOps(h) && i < |h| && h[i].op.Publish? && Retires(h[i].op) && h[i].value.Some?
    ensures AllRetiring(h[i].value.value, Pending(h[i].value.value))
  {
    assert CommittedAt(hash16, h, i) && h[i] in h;
    hide Build, Sound, Serial, GoodOps, Keys, Pending, Marshal, ValidText, StoredAttrs, ChosenAttrs;
    hide NormalForm, Equivalent, Kept;
    NoneComesBack(hash16, h, i);
    AlwaysSound(hash16, h, i);
    var o, op := Before(h, i).value, h[i].op;
    BuildMeaning(hash16, op.id, op.provider, Effective(op), Some(o), h[i].clock);
    assert DesiredKeys(Effective(op).records) == {};
  }

  /** Nothing is committed on an object that is gone. */
  lemma NoneComesBack(hash16: string -> string, h: seq<Entry>, i: nat)
    requires Serial(hash16, h) && GoodOps(h) && i < |h| && Retires(h[i].op)
    ensures Before(h, i).Some?
  {
    if Before(h, i).None? {
      StepCreate(hash16, h, i);
      AlwaysSound(hash16, h, i + 1);
      KeysNonEmpty(h[i].value.value.endpoints);
      assert false;
    }
  }

  /** Along the retirement: all targets pending under their first deadlines, the records among the first ones. */
  lemma {:induction false} AlwaysShrinks(hash16: string -> string, h: seq<Entry>, m: nat, j: nat)
    requires Serial(hash16, h) && GoodOps(h) && m <= j <= |h| && RetiresFrom(h, m)
    requires Before(h, m).Some? && AllRetiring(Before(h, m).value, Pending(Before(h, m).value))
    ensures KeySet(Before(h, j)) <= KeySet(Before(h, m))
    ensures Before(h, j).Some? ==> AllRetiring(Before(h, j).value, Pending(Before(h, m).value))
  {
    hide Serial, GoodOps, Keys, Pending, Retires;
    if j > m {
      AlwaysShrinks(hash16, h, m, j - 1);
      EntryShrinks(hash16, h, m, j - 1);
      hide Before;
    }
  }

  lemma EntryShrinks(hash16: string -> string, h: seq<Entry>, m: nat, i: nat)
    requires Serial(hash16, h) && GoodOps(h) && m <= i < |h| && RetiresFrom(h, m)
    requires Before(h, i).Some? ==> AllRetiring(Before(h, i).value, Pending(Before(h, i).value))
    ensures Before(h, i).Some? && Shrinks(Before(h, i).value, Before(h, i + 1))
    ensures
      Before(h, i + 1).Some? && !h[i].op.Touch? ==>
        exists k :: k in Pending(Before(h, i).value) && Pending(Before(h, i).value)[k] > h[i].clock
  {
    assert CommittedAt(hash16, h, i) && h[i] in h;
    hide Step, Sound, Shrinks, AllRetiring, Pending, GoodOp;
    NoneComesBack(hash16, h, i);
    AlwaysSound(hash16, h, i);
    StepShrinks(hash16, h[i].op, Before(h, i).value, h[i].clock);
  }

  /** How many of the entries from `m` up to `n` change the records. */
  function Changes(h: seq<Entry>, m: nat, n: nat): nat
    requires m <= n <= |h|
  {
    if n == m then 0
    else Changes(h, m, n - 1) + if RecordsOf(Before(h, n - 1)) != RecordsOf(Before(h, n)) then 1 else 0
  }

  /** Every change of the records costs a target. */
  lemma {:induction false} ChangesCost(hash16: string -> string, h: seq<Entry>, m: nat, n: nat)
    requires Serial(hash16, h) && GoodOps(h) && m <= n <= |h| && RetiresFrom(h, m)
    requires Before(h, m).Some? && AllRetiring(Before(h, m).value, Pending(Before(h, m).value))
    ensures Changes(h, m, n) + |KeySet(Before(h, n))| <= |KeySet(Before(h, m))|
  {
    hide Serial, GoodOps, Keys, Pending, Retires, Before;
    if n > m {
      ChangesCost(hash16, h, m, n - 1);
      AlwaysShrinks(hash16, h, m, n - 1);
      RetiringAlready(h, m, n - 1);
      EntryShrinks(hash16, h, m, n - 1);
      StrictSubset(KeySet(Before(h, n)), KeySet(Before(h, n - 1)));
    }
  }

  lemma RetiringAlready(h: seq<Entry>, m: nat, i: nat)
    requires m <= i <= |h| && Before(h, m).Some?
    requires Before(h, i).Some? ==> AllRetiring(Before(h, i).value, Pending(Before(h, m).value))
    ensures Before(h, i).Some? ==> AllRetiring(Before(h, i).value, Pending(Before(h, i).value))
  {
  }

  lemma StrictSubset<T>(a: set<T>, b: set<T>)
    requires a <= b
    ensures |a| <= |b| && (a != b ==> |a| < |b|)
  {
    SubsetSize(a, b);
    if a != b {
      var x :| x in b && x !in a;
      SubsetSize(a, b - {x});
    }
  }

  /** RETIREMENT IN EVERY RUN. Take any object of any run all of whose targets are pending, and suppose that from
      there on every commit on its key is a drop, an expiry or an edit of unrelated metadata. Then no
      deadline ever moves; at most as many commits change its records as it had targets pending; and the
      first drop or expiry committed at a clock no deadline is after is the last commit: the object is gone. */
  lemma RunsDrain(hash16: string -> string, run: seq<World>, n: nat, key: ObjectKey, m: nat)
    requires Run(hash16, run) && n < |run| && m <= |Log(run[n], key)| && RetiresFrom(Log(run[n], key), m)
    requires
      var start := Before(Log(run[n], key), m);
      start.Some? && AllRetiring(start.value, Pending(start.value))
    ensures
      var h := Log(run[n], key);
      var deadlines := Pending(Before(h, m).value);
      && (forall j :: m <= j <= |h| && Before(h, j).Some? ==> AllRetiring(Before(h, j).value, deadlines))
      && Changes(h, m, |h|) <= |deadlines|
      && (forall i :: m <= i < |h| && !h[i].op.Touch? && (forall k :: k in deadlines ==> deadlines[k] <= h[i].clock) ==>
            i == |h| - 1 && h[i].value.None?)
  {
    LogGood(hash16, run, n, key);
    var h := Log(run[n], key);
    hide Run, Serial, GoodOps, Retires, Log;
    var start := Before(h, m).value;
    var deadlines := Pending(start);
    forall j | m <= j <= |h| && Before(h, j).Some? ensures AllRetiring(Before(h, j).value, deadlines) {
      AlwaysShrinks(hash16, h, m, j);
    }
    ChangesCost(hash16, h, m, |h|);
    assert Keys(start) == deadlines.Keys && |deadlines| == |deadlines.Keys|;
    forall i | m <= i < |h| && !h[i].op.Touch? && (forall k :: k in deadlines ==> deadlines[k] <= h[i].clock)
      ensures i == |h| - 1 && h[i].value.None?
    {
      LastStep(hash16, h, m, i);
    }
  }

  lemma LastStep(hash16: string -> string, h: seq<Entry>, m: nat, i: nat)
    requires Serial(hash16, h) && GoodOps(h) && m <= i < |h| && RetiresFrom(h, m) && !h[i].op.Touch?
    requires Before(h, m).Some? && AllRetiring(Before(h, m).value, Pending(Before(h, m).value))
    requires forall k :: k in Pending(Before(h, m).value) ==> Pending(Before(h, m).value)[k] <= h[i].clock
    ensures i == |h| - 1 && h[i].value.None?
  {
    hide Serial, GoodOps, Retires, Keys, Pending;
    AlwaysShrinks(hash16, h, m, i);
    RetiringAlready(h, m, i);
    EntryShrinks(hash16, h, m, i);
    assert h[i].value.None?;
    if i + 1 < |h| {
      NoneComesBack(hash16, h, i + 1);
      assert false;
    }
  }
}
