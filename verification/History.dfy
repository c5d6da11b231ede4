/** Every serial history of one object: the committed steps of `Apply`, `Advance` and foreign metadata
    edits, one after another. What the writer promises of whole runs is proved here.
 */
module History {
  import opened Ordering
  import opened Endpoints
  import opened Lifecycle
  import opened Objects
  import opened Text
  import opened WriterSpec
  import opened WriterLaws
  import opened AdvanceLaws

  /** What a controller, or somebody editing unrelated metadata, may try on an object. */
  datatype Op =
    | Publish(id: Identity, provider: string, pub: Publication, selected: bool)
    | Expire
    | Touch(changed: Object)

  /** A committed step: the clock it was computed with and what it left. */
  datatype Entry = Entry(op: Op, clock: int, value: Option<Object>)

  /** An unselected provider reaches `build` with the zero publication. */
  function Effective(op: Op): Publication {
    if op.Publish? && op.selected then op.pub else ZERO_PUBLICATION
  }

  /** An edit that leaves everything the writer reads alone. */
  predicate SameManaged(a: Object, b: Object) {
    && a.namespace == b.namespace && a.name == b.name
    && a.endpoints == b.endpoints && a.delay == b.delay && a.lifecycle == b.lifecycle
    && (forall k :: k in [ManagedBy, Provider, SourceKeyLabel] ==> Lookup(a.labels, k) == Lookup(b.labels, k))
    && (forall k :: k in [SourceKind, SourceNamespace, SourceName, SourceUID] ==>
          Lookup(a.annotations, k) == Lookup(b.annotations, k))
  }

  ghost function Step(hash16: string -> string, op: Op, current: Option<Object>, now: int): Action {
    match op
    case Publish(id, provider, _, selected) => ApplyOne(hash16, id, provider, Effective(op), selected, current, now)
    case Expire => Advance(current, now)
    case Touch(o) => if current.Some? && SameManaged(current.value, o) then Update(o) else NoWrite
  }

  predicate Writes(a: Action) { a.Create? || a.Update? || a.Delete? }

  function Before(h: seq<Entry>, i: nat): Option<Object>
    requires i <= |h|
  {
    if i == 0 then None else h[i - 1].value
  }

  ghost predicate Committed(hash16: string -> string, e: Entry, before: Option<Object>) {
    var a := Step(hash16, e.op, before, e.clock);
    Writes(a) && e.value == After(before, a)
  }

  ghost predicate CommittedAt(hash16: string -> string, h: seq<Entry>, i: nat)
    requires i < |h|
  {
    Committed(hash16, h[i], Before(h, i))
  }

  /** A serial run: each entry is its operation applied to the value it replaced, clocks in order. */
  ghost predicate Serial(hash16: string -> string, h: seq<Entry>) {
    && (forall i :: 0 <= i < |h| ==> CommittedAt(hash16, h, i))
    && (forall i, j :: 0 <= i < j < |h| ==> h[i].clock <= h[j].clock)
  }

  /** What the controllers hand to the writer: publications as the resolver produces them. */
  ghost predicate GoodOp(op: Op) {
    op.Publish? ==> GoodPublication(Effective(op))
  }

  ghost predicate GoodOps(h: seq<Entry>) { forall e :: e in h ==> GoodOp(e.op) }

  lemma StepSound(hash16: string -> string, op: Op, current: Option<Object>, now: int)
    requires GoodOp(op) && SoundOr(current)
    ensures SoundOr(After(current, Step(hash16, op, current, now)))
    ensures op.Expire? ==> !Step(hash16, op, current, now).Fail?
  {
    hide Build, Advance, Equivalent, Sound;
    match op
    case Publish(id, provider, _, selected) =>
      var pub := Effective(op);
      if current.Some? || (selected && pub.records != []) {
        BuildSound(hash16, id, provider, pub, current, now);
      }
    case Expire =>
      AdvanceSound(current, now);
    case Touch(o) => if current.Some? { TouchSound(current.value, o); }
  }

  lemma TouchSound(a: Object, b: Object)
    requires Sound(a)
    ensures SameManaged(a, b) ==> Sound(b)
  {
  }

  /** Self-acceptance: every object of every run is sound, so no `Apply`, `build` or `Advance` ever
      finds invalid state in it. */
  lemma {:induction false} AlwaysSound(hash16: string -> string, h: seq<Entry>, n: nat)
    requires Serial(hash16, h) && GoodOps(h) && n <= |h|
    ensures SoundOr(Before(h, n))
  {
    hide Step, Sound, GoodOp;
    if n != 0 {
      AlwaysSound(hash16, h, n - 1);
      assert CommittedAt(hash16, h, n - 1) && h[n - 1] in h;
      StepSound(hash16, h[n - 1].op, Before(h, n - 1), h[n - 1].clock);
    }
  }

  ghost predicate Publishes(h: seq<Entry>, i: nat)
    requires i < |h|
  {
    h[i].op.Publish?
  }

  function DesiredBy(op: Op): set<TargetKey> {
    DesiredKeys(Effective(op).records)
  }

  ghost predicate Contains(h: seq<Entry>, i: nat, k: TargetKey)
    requires i < |h|
  {
    Publishes(h, i) && k in DesiredBy(h[i].op)
  }

  function DelayOf(h: seq<Entry>, i: nat): int
    requires i < |h|
  {
    Effective(h[i].op).deletionDelay
  }

  ghost predicate Present(value: Option<Object>, k: TargetKey) {
    value.Some? && k in Keys(value.value)
  }

  function StoredDelay(o: Object): int { if o.delay.Delay? then o.delay.nanos else 0 }

  /** What a committed publication does to one target. */
  ghost predicate PublishStep(op: Op, o: Object, now: int, after: Option<Object>, k: TargetKey) {
    var due := DueAt(Pending(o), StoredDelay(o), now, k);
    && (Present(after, k) <==> k in DesiredBy(op) || (k in Keys(o) && due > now))
    && (Present(after, k) ==> (k in Active(after.value) <==> k in DesiredBy(op)))
    && (Present(after, k) && k in Pending(after.value) ==> Pending(after.value)[k] == due)
  }

  /** What any other committed step does to one target. */
  ghost predicate QuietStep(o: Object, now: int, after: Option<Object>, k: TargetKey) {
    && (Present(after, k) ==> k in Keys(o) && (k in Pending(after.value) <==> k in Pending(o)))
    && (Present(after, k) && k in Pending(o) ==> Pending(after.value)[k] == Pending(o)[k])
    && (k in Keys(o) && !Present(after, k) ==> k in Pending(o) && Pending(o)[k] <= now)
  }

  ghost predicate TargetStep(op: Op, o: Object, now: int, after: Option<Object>, k: TargetKey) {
    if op.Publish? then PublishStep(op, o, now, after, k) else QuietStep(o, now, after, k)
  }

  /** The delay stored after a step: a publication with records brings its own. */
  predicate DelayStep(op: Op, o: Object, after: Option<Object>) {
    after.Some? ==>
      after.value.delay ==
      if op.Publish? && Effective(op).records != [] then Delay(Effective(op).deletionDelay) else o.delay
  }

  lemma PublishTarget(hash16: string -> string, op: Op, o: Object, now: int, k: TargetKey)
    requires op.Publish? && GoodOp(op) && Sound(o)
    requires Writes(Step(hash16, op, Some(o), now))
    ensures PublishStep(op, o, now, After(Some(o), Step(hash16, op, Some(o), now)), k)
  {
    hide Build, Equivalent, KeysOf, PendingMap, DesiredKeys;
    BuildTarget(hash16, op.id, op.provider, Effective(op), o, now, k);
  }

  lemma PublishDelay(hash16: string -> string, op: Op, o: Object, now: int)
    requires op.Publish? && Writes(Step(hash16, op, Some(o), now))
    ensures DelayStep(op, o, After(Some(o), Step(hash16, op, Some(o), now)))
  {
    if Build(hash16, op.id, op.provider, Effective(op), Some(o), now).Built? {
      BuiltIsAssembled(hash16, op.id, op.provider, Effective(op), Some(o), now);
    }
  }

  lemma ExpireManaged(o: Object, now: int)
    requires Sound(o) && Writes(Advance(Some(o), now))
    ensures Managed(o) && Readable(o)
  {
    hide Readable, Expired, Layout, Marshal;
  }

  lemma QuietAdvance(o: Object, now: int, k: TargetKey, after: Option<Object>)
    requires forall j :: j in Expired(o, now) ==> j in Keys(o)
    requires after.None? ==> Keys(o) == Expired(o, now)
    requires
      after.Some? ==> Keys(after.value) == Keys(o) - Expired(o, now) && Pending(after.value) == Waiting(Pending(o), now)
    ensures QuietStep(o, now, after, k)
  {
    hide Keys, Pending;
  }

  lemma ExpireTarget(hash16: string -> string, o: Object, now: int, k: TargetKey)
    requires Sound(o) && Writes(Step(hash16, Expire, Some(o), now))
    ensures QuietStep(o, now, After(Some(o), Step(hash16, Expire, Some(o), now)), k)
    ensures DelayStep(Expire, o, After(Some(o), Step(hash16, Expire, Some(o), now)))
  {
    hide Keys, Pending, StoredAttrs, Layout, Marshal, NormalForm, ValidText, Readable, Advance, Sound;
    hide QuietStep, Restrict, Managed, Waiting;
    ExpireManaged(o, now);
    AdvanceMeaning(o, now);
    PendingFilled(o);
    var after := After(Some(o), Advance(Some(o), now));
    QuietAdvance(o, now, k, after);
  }

  lemma StepTarget(hash16: string -> string, h: seq<Entry>, i: nat, k: TargetKey)
    requires Serial(hash16, h) && GoodOps(h) && i < |h| && Before(h, i).Some?
    ensures TargetStep(h[i].op, Before(h, i).value, h[i].clock, h[i].value, k)
    ensures DelayStep(h[i].op, Before(h, i).value, h[i].value)
  {
    hide Sound, GoodOp, Step, PublishStep, QuietStep, DelayStep;
    AlwaysSound(hash16, h, i);
    assert CommittedAt(hash16, h, i) && h[i] in h;
    var o := Before(h, i).value;
    match h[i].op
    case Publish(_, _, _, _) =>
      PublishTarget(hash16, h[i].op, o, h[i].clock, k);
      PublishDelay(hash16, h[i].op, o, h[i].clock);
    case Expire => ExpireTarget(hash16, o, h[i].clock, k);
    case Touch(c) => TouchTarget(hash16, o, h[i].clock, k, c);
  }

  lemma TouchTarget(hash16: string -> string, o: Object, now: int, k: TargetKey, c: Object)
    requires Writes(Step(hash16, Touch(c), Some(o), now))
    ensures QuietStep(o, now, After(Some(o), Step(hash16, Touch(c), Some(o), now)), k)
    ensures DelayStep(Touch(c), o, After(Some(o), Step(hash16, Touch(c), Some(o), now)))
  {
  }

  /** The first entry of an object, or the first after a deletion, is a publication. */
  lemma StepCreate(hash16: string -> string, h: seq<Entry>, i: nat)
    requires Serial(hash16, h) && GoodOps(h) && i < |h| && Before(h, i).None?
    ensures h[i].op.Publish? && h[i].value.Some?
    ensures Keys(h[i].value.value) == DesiredBy(h[i].op) && Pending(h[i].value.value) == map[]
    ensures h[i].value.value.delay == Delay(DelayOf(h, i))
  {
    assert CommittedAt(hash16, h, i) && h[i] in h;
    var op := h[i].op;
    BuildMeaning(hash16, op.id, op.provider, Effective(op), None, h[i].clock);
    BuiltIsAssembled(hash16, op.id, op.provider, Effective(op), None, h[i].clock);
  }

  /** Entry p published k, and no later entry before n is a publication. */
  ghost predicate ActiveSince(h: seq<Entry>, n: nat, k: TargetKey, p: nat)
    requires n <= |h|
  {
    && p < n && Contains(h, p, k)
    && forall j :: p < j < n ==> !Publishes(h, j)
  }

  /** Entry p is the last that published k before n, and q is the publication that dropped it. */
  ghost predicate DroppedAt(h: seq<Entry>, n: nat, k: TargetKey, p: nat, q: nat)
    requires n <= |h|
  {
    && p < q < n && Contains(h, p, k)
    && Publishes(h, q)
    && (forall j :: p < j < q ==> !Publishes(h, j))
    && (forall j :: p < j < n ==> !Contains(h, j, k))
  }

  lemma DesiredNeedsRecords(op: Op, k: TargetKey)
    requires k in DesiredBy(op)
    ensures Effective(op).records != []
  {
  }

  /** Where a published target comes from: an active one from the last publication, whose delay is
      the stored one; a retiring one has as deadline the clock of the entry that dropped it plus the
      delay of the last publication that contained it. */
  lemma {:induction false} Provenance(hash16: string -> string, h: seq<Entry>, n: nat, k: TargetKey)
    returns (p: nat, q: nat)
    requires Serial(hash16, h) && GoodOps(h) && n <= |h| && Present(Before(h, n), k)
    ensures
      var o := Before(h, n).value;
      if k in Pending(o) then
        DroppedAt(h, n, k, p, q) && Pending(o)[k] == h[q].clock + DelayOf(h, p)
      else
        ActiveSince(h, n, k, p) && o.delay == Delay(DelayOf(h, p))
  {
    hide Serial, GoodOps, KeysOf, PendingMap, DesiredKeys;
    var i := n - 1;
    p, q := i, i;
    if Before(h, i).None? {
      StepCreate(hash16, h, i);
    } else {
      StepTarget(hash16, h, i, k);
      var o := Before(h, i).value;
      if Contains(h, i, k) {
        DesiredNeedsRecords(h[i].op, k);
      } else {
        p, q := Provenance(hash16, h, i, k);
        if h[i].op.Publish? && k !in Pending(o) {
          q := i;
        }
      }
    }
  }

  /** GRACE PERIOD. Whenever a published target leaves the spec, or its object goes, the step's clock
      is at least the clock of the publication that dropped the target plus the deletion delay of the
      last publication that contained it. */
  lemma Grace(hash16: string -> string, h: seq<Entry>, i: nat, k: TargetKey) returns (p: nat, q: nat)
    requires Serial(hash16, h) && GoodOps(h) && i < |h|
    requires Present(Before(h, i), k) && !Present(Before(h, i + 1), k)
    ensures DroppedAt(h, i + 1, k, p, q)
    ensures h[i].clock >= h[q].clock + DelayOf(h, p)
  {
    hide Serial, GoodOps, KeysOf, PendingMap, DesiredKeys;
    StepTarget(hash16, h, i, k);
    p, q := Provenance(hash16, h, i, k);
    if k !in Pending(Before(h, i).value) {
      q := i;
    }
  }

  /** The active targets of an object are exactly what its last committed publication desired. */
  lemma {:induction false} ActiveIsPublished(hash16: string -> string, h: seq<Entry>, n: nat) returns (p: nat)
    requires Serial(hash16, h) && GoodOps(h) && n <= |h| && Before(h, n).Some?
    ensures p < n && Publishes(h, p) && forall j :: p < j < n ==> !Publishes(h, j)
    ensures Active(Before(h, n).value) == DesiredBy(h[p].op)
  {
    var i := n - 1;
    if Before(h, i).None? {
      StepCreate(hash16, h, i);
      p := i;
    } else {
      if h[i].op.Publish? {
        p := i;
        forall k ensures k in Active(h[i].value.value) <==> k in DesiredBy(h[i].op) {
          StepTarget(hash16, h, i, k);
        }
      } else {
        p := ActiveIsPublished(hash16, h, i);
        forall k ensures k in Active(h[i].value.value) <==> k in Active(Before(h, i).value) {
          StepTarget(hash16, h, i, k);
        }
      }
    }
  }
}
