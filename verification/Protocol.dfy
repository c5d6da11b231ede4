/** Both controllers at work on a shared store. Any number of tasks read objects, at any past
    version, read the clock, and try to commit what they computed; the store accepts an update or a
    delete only of the current version and a create only of an absent object. Every run of this
    system is shown equal to a serial history of each object.
 */
module Protocol {
  import opened Lifecycle
  import opened Objects
  import opened Endpoints
  import opened WriterSpec
  import opened WriterLaws
  import opened AdvanceLaws
  import opened History
  import opened Acceptance
  import opened Drain

  datatype ObjectKey = ObjectKey(namespace: string, name: string)

  /** A committed version: the serial entry, and the clock reading its task really used. */
  datatype Version = Version(entry: Entry, reading: int)

  /** A running attempt of `applyOne` or `Advance`: before the read, after it, and after the clock. */
  datatype Task =
    | Idle
    | Got(key: ObjectKey, op: Op, seen: nat)
    | Ready(key: ObjectKey, op: Op, seen: nat, reading: int)

  datatype World = World(time: int, store: map<ObjectKey, seq<Version>>, tasks: map<nat, Task>)

  function Versions(w: World, key: ObjectKey): seq<Version> {
    if key in w.store then w.store[key] else []
  }

  function Entries(vs: seq<Version>): (h: seq<Entry>)
    ensures |h| == |vs| && forall i :: 0 <= i < |h| ==> h[i] == vs[i].entry
  {
    seq(|vs|, i requires 0 <= i < |vs| => vs[i].entry)
  }

  /** The history of an object in a world. */
  function Log(w: World, key: ObjectKey): seq<Entry> { Entries(Versions(w, key)) }

  function Current(w: World, key: ObjectKey): Option<Object> {
    Before(Log(w, key), |Versions(w, key)|)
  }

  /** What a controller may start on an object: publications as resolved, addressed by their name. */
  ghost predicate Admissible(hash16: string -> string, key: ObjectKey, op: Op) {
    GoodOp(op) && GoodIdentity(hash16, key.namespace, key.name, op)
  }

  ghost predicate Tick(w: World, w': World) {
    w.time <= w'.time && w' == w.(time := w'.time)
  }

  /** A read, or a re-read after a conflict: any past version may be returned. */
  ghost predicate Get(hash16: string -> string, w: World, w': World, t: nat, key: ObjectKey, op: Op, seen: nat) {
    && Admissible(hash16, key, op) && seen <= |Versions(w, key)|
    && w' == w.(tasks := w.tasks[t := Got(key, op, seen)])
  }

  ghost predicate ReadClock(w: World, w': World, t: nat) {
    && t in w.tasks && w.tasks[t].Got?
    && var g := w.tasks[t];
       w' == w.(tasks := w.tasks[t := Ready(g.key, g.op, g.seen, w.time)])
  }

  /** What the task computed from the version it read and the clock it read. */
  ghost function Computed(hash16: string -> string, w: World, r: Task): Action
    requires r.Ready? && r.seen <= |Versions(w, r.key)|
  {
    Step(hash16, r.op, Before(Log(w, r.key), r.seen), r.reading)
  }

  predicate Accepts(w: World, r: Task, a: Action)
    requires r.Ready?
  {
    match a
    case Create(_) => Current(w, r.key).None?
    case Update(_) => r.seen == |Versions(w, r.key)|
    case Delete => r.seen == |Versions(w, r.key)|
    case _ => false
  }

  /** The version a task appends. A create is dated by its commit: it does not depend on the clock. */
  function NewVersion(w: World, r: Task, a: Action): Version
    requires r.Ready?
  {
    Version(Entry(r.op, if a.Create? then w.time else r.reading, After(Current(w, r.key), a)), r.reading)
  }

  /** The write: accepted, or a conflict or nothing to write, after which the task may read again. */
  ghost predicate Commit(hash16: string -> string, w: World, w': World, t: nat) {
    && t in w.tasks && w.tasks[t].Ready?
    && var r := w.tasks[t];
       && r.seen <= |Versions(w, r.key)|
       && var a := Computed(hash16, w, r);
          w' == World(w.time,
                      if Accepts(w, r, a) then w.store[r.key := Versions(w, r.key) + [NewVersion(w, r, a)]]
                      else w.store,
                      w.tasks[t := Idle])
  }

  ghost predicate Next(hash16: string -> string, w: World, w': World) {
    || Tick(w, w')
    || (exists t, key, op, seen :: Get(hash16, w, w', t, key, op, seen))
    || (exists t :: ReadClock(w, w', t))
    || (exists t :: Commit(hash16, w, w', t))
  }

  predicate Initial(w: World) { w.store == map[] && w.tasks == map[] }

  ghost predicate Run(hash16: string -> string, run: seq<World>) {
    && run != [] && Initial(run[0])
    && forall i :: 0 <= i < |run| - 1 ==> Next(hash16, run[i], run[i + 1])
  }

  /** One version against the history before it: it is its operation applied to the value it replaced,
      at its own reading; only a create is dated later than its reading. */
  ghost predicate Exact(hash16: string -> string, vs: seq<Version>, i: nat)
    requires i < |vs|
  {
    && Committed(hash16, Entry(vs[i].entry.op, vs[i].reading, vs[i].entry.value), Before(Entries(vs), i))
    && vs[i].reading <= vs[i].entry.clock
    && (Before(Entries(vs), i).Some? ==> vs[i].reading == vs[i].entry.clock)
  }

  ghost predicate GoodVersions(hash16: string -> string, key: ObjectKey, vs: seq<Version>) {
    && Serial(hash16, Entries(vs))
    && (forall i :: 0 <= i < |vs| ==> Exact(hash16, vs, i))
    && (forall i :: 0 <= i < |vs| ==> Admissible(hash16, key, vs[i].entry.op))
  }

  ghost predicate InTime(vs: seq<Version>, time: int) {
    forall i :: 0 <= i < |vs| ==> vs[i].entry.clock <= time
  }

  ghost predicate GoodTask(hash16: string -> string, w: World, r: Task) {
    match r
    case Idle => true
    case Got(key, op, seen) => Admissible(hash16, key, op) && seen <= |Versions(w, key)|
    case Ready(key, op, seen, reading) =>
      && Admissible(hash16, key, op) && seen <= |Versions(w, key)|
      && reading <= w.time
      && (forall i :: 0 <= i < seen ==> Versions(w, key)[i].entry.clock <= reading)
  }

  ghost predicate Inv(hash16: string -> string, w: World) {
    && (forall key :: key in w.store ==> GoodVersions(hash16, key, w.store[key]) && InTime(w.store[key], w.time))
    && (forall t :: t in w.tasks ==> GoodTask(hash16, w, w.tasks[t]))
  }

  /** Creating does not look at the clock. */
  lemma CreateIgnoresClock(hash16: string -> string, op: Op, t1: int, t2: int)
    ensures Step(hash16, op, None, t1) == Step(hash16, op, None, t2)
  {
  }

  lemma EntriesSnoc(vs: seq<Version>, v: Version)
    ensures Entries(vs + [v]) == Entries(vs) + [v.entry]
    ensures forall i :: 0 <= i <= |vs| ==> Before(Entries(vs + [v]), i) == Before(Entries(vs), i)
  {
  }

  lemma SerialSnoc(hash16: string -> string, h: seq<Entry>, e: Entry)
    requires Serial(hash16, h) && Committed(hash16, e, Before(h, |h|))
    requires forall i :: 0 <= i < |h| ==> h[i].clock <= e.clock
    ensures Serial(hash16, h + [e])
  {
    hide Committed;
    var g := h + [e];
    forall i | 0 <= i < |g| ensures CommittedAt(hash16, g, i) {
      assert i < |h| ==> CommittedAt(hash16, h, i);
      assert Before(g, i) == Before(h, i);
    }
  }

  lemma VersionsSnoc(hash16: string -> string, key: ObjectKey, vs: seq<Version>, v: Version)
    requires GoodVersions(hash16, key, vs) && Admissible(hash16, key, v.entry.op)
    requires Committed(hash16, v.entry, Before(Entries(vs), |vs|))
    requires Committed(hash16, v.entry.(clock := v.reading), Before(Entries(vs), |vs|))
    requires v.reading <= v.entry.clock && (Before(Entries(vs), |vs|).Some? ==> v.reading == v.entry.clock)
    requires forall i :: 0 <= i < |vs| ==> vs[i].entry.clock <= v.entry.clock
    ensures GoodVersions(hash16, key, vs + [v])
  {
    hide Committed, Admissible;
    EntriesSnoc(vs, v);
    SerialSnoc(hash16, Entries(vs), v.entry);
    forall i | 0 <= i < |vs| + 1 ensures Exact(hash16, vs + [v], i) {
      assert i < |vs| ==> Exact(hash16, vs, i);
    }
  }

  /** An accepted write appends a version that is right at its place. */
  lemma AcceptedVersion(hash16: string -> string, w: World, r: Task)
    requires r.Ready? && GoodTask(hash16, w, r)
    requires GoodVersions(hash16, r.key, Versions(w, r.key)) && InTime(Versions(w, r.key), w.time)
    requires Accepts(w, r, Computed(hash16, w, r))
    ensures GoodVersions(hash16, r.key, Versions(w, r.key) + [NewVersion(w, r, Computed(hash16, w, r))])
    ensures InTime(Versions(w, r.key) + [NewVersion(w, r, Computed(hash16, w, r))], w.time)
  {
    var vs := Versions(w, r.key);
    var a := Computed(hash16, w, r);
    var v := NewVersion(w, r, a);
    AcceptedReadsCurrent(hash16, w, r);
    CreateIgnoresClock(hash16, r.op, r.reading, w.time);
    hide Step, Admissible, GoodVersions;
    VersionsSnoc(hash16, r.key, vs, v);
  }

  /** What an accepted task read is the current value, even when the read itself was stale. */
  lemma AcceptedReadsCurrent(hash16: string -> string, w: World, r: Task)
    requires r.Ready? && r.seen <= |Versions(w, r.key)|
    requires Accepts(w, r, Computed(hash16, w, r))
    ensures Before(Log(w, r.key), r.seen) == Current(w, r.key)
    ensures Computed(hash16, w, r).Create? <==> Current(w, r.key).None?
  {
    StepShape(hash16, r.op, Before(Log(w, r.key), r.seen), r.reading);
  }

  lemma StepShape(hash16: string -> string, op: Op, current: Option<Object>, now: int)
    ensures
      var a := Step(hash16, op, current, now);
      && (a.Create? ==> current.None?)
      && (a.Update? || a.Delete? ==> current.Some?)
  {
    hide Build, Equivalent, Readable;
  }

  lemma TickKeeps(hash16: string -> string, w: World, w': World)
    requires Inv(hash16, w) && Tick(w, w')
    ensures Inv(hash16, w')
  {
    hide GoodVersions, Admissible;
    forall t | t in w'.tasks ensures GoodTask(hash16, w', w'.tasks[t]) {
      assert GoodTask(hash16, w, w.tasks[t]);
    }
  }

  lemma GetKeeps(hash16: string -> string, w: World, w': World, t: nat, key: ObjectKey, op: Op, seen: nat)
    requires Inv(hash16, w) && Get(hash16, w, w', t, key, op, seen)
    ensures Inv(hash16, w')
  {
    hide GoodVersions, Admissible;
    forall s | s in w'.tasks ensures GoodTask(hash16, w', w'.tasks[s]) {
      assert s != t ==> GoodTask(hash16, w, w.tasks[s]);
    }
  }

  lemma ReadClockKeeps(hash16: string -> string, w: World, w': World, t: nat)
    requires Inv(hash16, w) && ReadClock(w, w', t)
    ensures Inv(hash16, w')
  {
    hide GoodVersions, Admissible;
    forall s | s in w'.tasks ensures GoodTask(hash16, w', w'.tasks[s]) {
      assert GoodTask(hash16, w, w.tasks[s]);
    }
  }

  lemma CommitKeeps(hash16: string -> string, w: World, w': World, t: nat)
    requires Inv(hash16, w) && Commit(hash16, w, w', t)
    ensures Inv(hash16, w')
  {
    var r := w.tasks[t];
    assert GoodTask(hash16, w, r);
    CommitKeepsStore(hash16, w, w', t);
    hide GoodVersions, Admissible, Computed, InTime;
    forall s | s in w'.tasks ensures GoodTask(hash16, w', w'.tasks[s]) {
      if s != t {
        assert GoodTask(hash16, w, w.tasks[s]);
        VersionsGrow(hash16, w, w', t, if w.tasks[s].Idle? then r.key else w.tasks[s].key);
      }
    }
  }

  lemma CommitKeepsStore(hash16: string -> string, w: World, w': World, t: nat)
    requires Inv(hash16, w) && Commit(hash16, w, w', t)
    ensures forall key :: key in w'.store ==> GoodVersions(hash16, key, w'.store[key]) && InTime(w'.store[key], w'.time)
  {
    var r := w.tasks[t];
    assert GoodTask(hash16, w, r);
    if r.key !in w.store { EmptyGood(hash16, r.key, w.time); }
    hide GoodVersions, Admissible, Computed, InTime;
    if Accepts(w, r, Computed(hash16, w, r)) {
      AcceptedVersion(hash16, w, r);
    }
  }

  lemma EmptyGood(hash16: string -> string, key: ObjectKey, time: int)
    ensures GoodVersions(hash16, key, []) && InTime([], time)
  {
  }

  /** The store only grows: a version once committed stays where it is. */
  lemma VersionsGrow(hash16: string -> string, w: World, w': World, t: nat, key: ObjectKey)
    requires Commit(hash16, w, w', t)
    ensures Versions(w, key) <= Versions(w', key)
  {
    hide Computed;
  }

  lemma NextKeeps(hash16: string -> string, w: World, w': World)
    requires Inv(hash16, w) && Next(hash16, w, w')
    ensures Inv(hash16, w')
  {
    hide Inv, Tick, Get, ReadClock, Commit;
    if Tick(w, w') {
      TickKeeps(hash16, w, w');
    } else if t, key, op, seen :| Get(hash16, w, w', t, key, op, seen) {
      GetKeeps(hash16, w, w', t, key, op, seen);
    } else if t :| ReadClock(w, w', t) {
      ReadClockKeeps(hash16, w, w', t);
    } else {
      var t :| Commit(hash16, w, w', t);
      CommitKeeps(hash16, w, w', t);
    }
  }

  lemma {:induction false} RunKeeps(hash16: string -> string, run: seq<World>, n: nat)
    requires Run(hash16, run) && n < |run|
    ensures Inv(hash16, run[n])
  {
    hide Next;
    if n != 0 {
      RunKeeps(hash16, run, n - 1);
      assert Next(hash16, run[n - 1], run[n - 1 + 1]);
      hide Inv;
      NextKeeps(hash16, run[n - 1], run[n]);
    }
  }

  /** SERIALISABILITY. In every world of every run, the committed versions of every object are a
      serial run, and each is exactly its operation applied to the version it replaced, both at its
      serial clock and at the clock reading its task used. */
  lemma Serialisable(hash16: string -> string, run: seq<World>, n: nat, key: ObjectKey)
    requires Run(hash16, run) && n < |run|
    ensures GoodVersions(hash16, key, Versions(run[n], key))
    ensures InTime(Versions(run[n], key), run[n].time)
  {
    RunKeeps(hash16, run, n);
    if key !in run[n].store { EmptyGood(hash16, key, run[n].time); }
  }

  /** Clock readings of an object never go backwards, except at a create. */
  lemma ReadingsInOrder(hash16: string -> string, run: seq<World>, n: nat, key: ObjectKey, i: nat, j: nat)
    requires Run(hash16, run) && n < |run| && i < j < |Versions(run[n], key)|
    requires Before(Log(run[n], key), j).Some?
    ensures Versions(run[n], key)[i].reading <= Versions(run[n], key)[j].reading
  {
    Serialisable(hash16, run, n, key);
    hide Run, Committed, Admissible;
    var vs := Versions(run[n], key);
    assert Exact(hash16, vs, i) && Exact(hash16, vs, j);
    assert Entries(vs)[i].clock <= Entries(vs)[j].clock;
  }

  lemma LogGood(hash16: string -> string, run: seq<World>, n: nat, key: ObjectKey)
    requires Run(hash16, run) && n < |run|
    ensures Serial(hash16, Log(run[n], key)) && GoodOps(Log(run[n], key))
    ensures GoodIdentities(hash16, key.namespace, key.name, Log(run[n], key))
  {
    Serialisable(hash16, run, n, key);
    hide Run, Serial, GoodOp, GoodIdentity;
    var h := Log(run[n], key);
    forall e | e in h ensures GoodOp(e.op) && GoodIdentity(hash16, key.namespace, key.name, e.op) {
      var i :| 0 <= i < |h| && h[i] == e;
      assert Admissible(hash16, key, Versions(run[n], key)[i].entry.op);
    }
  }

  /** GRACE PERIOD of every concurrent run. */
  lemma ConcurrentGrace(hash16: string -> string, run: seq<World>, n: nat, key: ObjectKey, i: nat, k: TargetKey)
    returns (p: nat, q: nat)
    requires Run(hash16, run) && n < |run| && i < |Log(run[n], key)|
    requires Present(Before(Log(run[n], key), i), k) && !Present(Before(Log(run[n], key), i + 1), k)
    ensures
      var h := Log(run[n], key);
      var vs := Versions(run[n], key);
      && DroppedAt(h, i + 1, k, p, q)
      && h[i].clock >= h[q].clock + DelayOf(h, p)
      && vs[i].reading >= vs[q].reading + DelayOf(h, p)
  {
    LogGood(hash16, run, n, key);
    Serialisable(hash16, run, n, key);
    hide Run, Serial, GoodOps, Committed, Admissible, KeysOf;
    p, q := Grace(hash16, Log(run[n], key), i, k);
    assert Exact(hash16, Versions(run[n], key), i) && Exact(hash16, Versions(run[n], key), q);
  }

  /** SELF-ACCEPTANCE of every concurrent run: the object under a key always passes every check. */
  lemma ConcurrentAcceptance(hash16: string -> string, run: seq<World>, n: nat, key: ObjectKey)
    requires Run(hash16, run) && n < |run| && Current(run[n], key).Some?
    ensures
      var o := Current(run[n], key).value;
      && LifecycleAccepts(hash16, o)
      && ListingAccepts(hash16, RebuiltIdentity(o), o)
      && o.namespace == key.namespace && o.name == key.name
  {
    LogGood(hash16, run, n, key);
    var h := Log(run[n], key);
    AlwaysAccepted(hash16, key.namespace, key.name, h, |h|);
    AlwaysIdentified(hash16, key.namespace, key.name, h, |h|);
  }

  /** The exception is real, for every publication with a target, whatever its delay: a task that saw the
      object absent at time 0 creates it after another task created it and dropped it at time 5, and it
      was deleted when its delay had passed. */
  lemma StaleCreate(hash16: string -> string, key: ObjectKey, op: Op) returns (run: seq<World>)
    requires op.Publish? && op.selected && Admissible(hash16, key, op) && DesiredBy(op) != {}
    ensures Run(hash16, run)
    ensures
      var vs := Versions(run[|run| - 1], key);
      var n := |vs| - 1;
      n >= 2 && Before(Log(run[|run| - 1], key), n).None? && vs[n].reading == 0 && vs[n - 1].reading >= 5
  {
    hide Step, Run, Admissible;
    var drop := Publish(op.id, op.provider, ZERO_PUBLICATION, false);
    DropAdmissible(hash16, key, op);
    var o, u := CreatesThenDrops(hash16, op, drop);
    var v0 := Version(Entry(op, 0, Some(o)), 0);
    run := CreateBesides(hash16, key, op, v0);
    RunNonEmpty(hash16, run);
    if u.Some? {
      var v1 := Version(Entry(drop, 5, u), 5);
      run := Drop(hash16, run, key, op, drop, [v0], 5, v1);
      assert [v0] + [v1] == [v0, v1];
      var later := 5 + op.pub.deletionDelay;
      run := Wait(hash16, run, later);
      run := DropAndRecreate(hash16, run, key, op, drop, [v0, v1], later, v0.entry.value);
    } else {
      run := DropAndRecreate(hash16, run, key, op, drop, [v0], 5, v0.entry.value);
    }
  }

  lemma DropAdmissible(hash16: string -> string, key: ObjectKey, op: Op)
    requires op.Publish? && Admissible(hash16, key, op)
    ensures Admissible(hash16, key, Publish(op.id, op.provider, ZERO_PUBLICATION, false)) && GoodOp(op)
  {
  }

  /** The stale task waits; the current version of the object is the last of `vs`. */
  ghost predicate StaleTask(run: seq<World>, key: ObjectKey, op: Op, vs: seq<Version>, time: int) {
    && run != [] && vs != []
    && var w := run[|run| - 1];
       w.time == time && Versions(w, key) == vs && 0 in w.tasks && w.tasks[0] == Ready(key, op, 0, 0)
  }

  lemma Wait(hash16: string -> string, run: seq<World>, time: int) returns (longer: seq<World>)
    requires Run(hash16, run) && run != [] && run[|run| - 1].time <= time
    ensures Run(hash16, longer) && longer != [] && longer[|longer| - 1] == run[|run| - 1].(time := time)
  {
    hide Run;
    var w := run[|run| - 1];
    assert Tick(w, w.(time := time));
    longer := Extend(hash16, run, w.(time := time));
  }

  /** Task 1 applies the drop to the current version and commits. */
  lemma Drop(hash16: string -> string, run: seq<World>, key: ObjectKey, op: Op, drop: Op, vs: seq<Version>, time: int,
             v: Version)
    returns (longer: seq<World>)
    requires Run(hash16, run) && Admissible(hash16, key, drop) && StaleTask(run, key, op, vs, time)
    requires
      var a := Step(hash16, drop, vs[|vs| - 1].entry.value, time);
      (a.Update? || a.Delete?) && v == Version(Entry(drop, time, After(vs[|vs| - 1].entry.value, a)), time)
    ensures Run(hash16, longer) && StaleTask(longer, key, op, vs + [v], time)
  {
    hide Step, Admissible, Run;
    longer := ReadAndClock(hash16, run, 1, key, drop, |vs|);
    RunNonEmpty(hash16, longer);
    assert Entries(vs)[|vs| - 1] == vs[|vs| - 1].entry;
    longer := CommitNext(hash16, longer, 1, v);
    RunNonEmpty(hash16, longer);
  }

  lemma DropAndRecreate(hash16: string -> string, run: seq<World>, key: ObjectKey, op: Op, drop: Op, vs: seq<Version>,
                        time: int,
                        created: Option<Object>) returns (longer: seq<World>)
    requires Run(hash16, run) && Admissible(hash16, key, drop) && StaleTask(run, key, op, vs, time)
    requires created.Some? && Step(hash16, op, None, 0) == Create(created.value)
    requires Step(hash16, drop, vs[|vs| - 1].entry.value, time) == Delete
    ensures Run(hash16, longer) && longer != []
    ensures
      var all := Versions(longer[|longer| - 1], key);
      var n := |vs| + 1;
      && |all| == n + 1 && Before(Log(longer[|longer| - 1], key), n).None?
      && all[n].reading == 0 && all[n - 1].reading == time
  {
    hide Step, Admissible, Run;
    var gone := Version(Entry(drop, time, None), time);
    longer := Drop(hash16, run, key, op, drop, vs, time, gone);
    assert Entries(vs + [gone])[|vs|] == gone.entry;
    longer := CommitNext(hash16, longer, 0, Version(Entry(op, time, created), 0));
    RunNonEmpty(hash16, longer);
  }

  /** Task 0 has seen the object absent; task 1 creates it; the clock moves to 5. */
  lemma CreateBesides(hash16: string -> string, key: ObjectKey, op: Op, v0: Version) returns (run: seq<World>)
    requires Admissible(hash16, key, op)
    requires v0.entry.value.Some? && v0 == Version(Entry(op, 0, v0.entry.value), 0)
    requires Step(hash16, op, None, 0) == Create(v0.entry.value.value)
    ensures Run(hash16, run)
    ensures
      var w := run[|run| - 1];
      w.time == 5 && Versions(w, key) == [v0] && 0 in w.tasks && w.tasks[0] == Ready(key, op, 0, 0)
  {
    run := [World(0, map[], map[])];
    assert Run(hash16, run);
    hide Step, Admissible, Run;
    run := ReadAndClock(hash16, run, 0, key, op, 0);
    run := ReadAndClock(hash16, run, 1, key, op, 0);
    run := CommitNext(hash16, run, 1, v0);
    var w := assert run != [] by { RunNonEmpty(hash16, run); } run[|run| - 1];
    assert Tick(w, w.(time := 5));
    run := Extend(hash16, run, w.(time := 5));
  }

  lemma CommitNext(hash16: string -> string, run: seq<World>, t: nat, v: Version) returns (longer: seq<World>)
    requires Run(hash16, run)
    requires
      var w := run[|run| - 1];
      && t in w.tasks && w.tasks[t].Ready? && w.tasks[t].seen <= |Versions(w, w.tasks[t].key)|
      && Accepts(w, w.tasks[t], Computed(hash16, w, w.tasks[t]))
      && v == NewVersion(w, w.tasks[t], Computed(hash16, w, w.tasks[t]))
    ensures Run(hash16, longer)
    ensures
      var w := run[|run| - 1];
      var w' := longer[|longer| - 1];
      && w'.time == w.time && w'.tasks == w.tasks[t := Idle]
      && Versions(w', w.tasks[t].key) == Versions(w, w.tasks[t].key) + [v]
  {
    hide Step, Run;
    var w := assert run != [] by { RunNonEmpty(hash16, run); } run[|run| - 1];
    var w' := World(w.time, w.store[w.tasks[t].key := Versions(w, w.tasks[t].key) + [v]], w.tasks[t := Idle]);
    assert Commit(hash16, w, w', t);
    longer := Extend(hash16, run, w');
  }

  lemma Extend(hash16: string -> string, run: seq<World>, w: World) returns (longer: seq<World>)
    requires Run(hash16, run) && Next(hash16, run[|run| - 1], w)
    ensures Run(hash16, longer) && longer == run + [w]
  {
    hide Next;
    longer := run + [w];
    forall i | 0 <= i < |longer| - 1 ensures Next(hash16, longer[i], longer[i + 1]) {
      assert i < |run| - 1 ==> Next(hash16, run[i], run[i + 1]);
    }
  }

  lemma ReadAndClock(hash16: string -> string, run: seq<World>, t: nat, key: ObjectKey, op: Op, seen: nat)
    returns (longer: seq<World>)
    requires Run(hash16, run) && Admissible(hash16, key, op) && seen <= |Versions(run[|run| - 1], key)|
    ensures
      var w := run[|run| - 1];
      && Run(hash16, longer)
      && var w' := longer[|longer| - 1];
         && w'.time == w.time && w'.store == w.store
         && w'.tasks == w.tasks[t := Ready(key, op, seen, w.time)]
  {
    hide Admissible, Run;
    var w := assert run != [] by { RunNonEmpty(hash16, run); } run[|run| - 1];
    var read := w.(tasks := w.tasks[t := Got(key, op, seen)]);
    var timed := w.(tasks := w.tasks[t := Ready(key, op, seen, w.time)]);
    assert Get(hash16, w, read, t, key, op, seen);
    longer := Extend(hash16, run, read);
    assert read.tasks[t := Ready(key, op, seen, w.time)] == timed.tasks;
    assert ReadClock(read, timed, t);
    longer := Extend(hash16, longer, timed);
  }

  lemma RunNonEmpty(hash16: string -> string, run: seq<World>)
    requires Run(hash16, run)
    ensures run != []
  {
  }

  lemma Creates(hash16: string -> string, op: Op) returns (o: Object)
    requires op.Publish? && op.selected && GoodOp(op) && DesiredBy(op) != {}
    ensures Step(hash16, op, None, 0) == Create(o)
    ensures Sound(o) && Owned(hash16, op.id, op.provider, o) && Pending(o) == map[]
    ensures o.delay == Delay(op.pub.deletionDelay)
    ensures op.pub.deletionDelay >= 0
  {
    var pub := op.pub;
    var k :| k in DesiredBy(op);
    DesiredNeedsRecords(op, k);
    BuildMeaning(hash16, op.id, op.provider, pub, None, 0);
    BuildSound(hash16, op.id, op.provider, pub, None, 0);
    BuiltIsAssembled(hash16, op.id, op.provider, pub, None, 0);
    hide Build, Sound, KeysOf, PendingMap;
    o := Build(hash16, op.id, op.provider, pub, None, 0).obj;
    LabelsOwn(hash16, op.id, op.provider, o, map[]);
  }

  /** What is created at 0 is dropped at 5: deleted at once without a delay, and otherwise updated to an
      object that the same drop deletes when the delay has passed. */
  lemma CreatesThenDrops(hash16: string -> string, op: Op, drop: Op) returns (o: Object, u: Option<Object>)
    requires op.Publish? && op.selected && GoodOp(op) && DesiredBy(op) != {}
    requires drop == Publish(op.id, op.provider, ZERO_PUBLICATION, false)
    ensures Step(hash16, op, None, 0) == Create(o)
    ensures u.None? ==> Step(hash16, drop, Some(o), 5) == Delete
    ensures u.Some? ==> op.pub.deletionDelay >= 0 && Step(hash16, drop, Some(o), 5) == Update(u.value)
                        && Step(hash16, drop, u, 5 + op.pub.deletionDelay) == Delete
  {
    hide Sound, Owned, ApplyOne, Pending, DesiredBy, GoodOp;
    o := Creates(hash16, op);
    u := DropsInTime(hash16, op.id, op.provider, o);
  }

  lemma DropsInTime(hash16: string -> string, id: Identity, provider: string, o: Object) returns (u: Option<Object>)
    requires Sound(o) && Owned(hash16, id, provider, o) && Pending(o) == map[] && o.delay.Delay?
    ensures u.None? ==> ApplyOne(hash16, id, provider, ZERO_PUBLICATION, false, Some(o), 5) == Delete
    ensures u.Some? ==> ApplyOne(hash16, id, provider, ZERO_PUBLICATION, false, Some(o), 5) == Update(u.value)
                        && ApplyOne(hash16, id, provider, ZERO_PUBLICATION, false, u, 5 + o.delay.nanos) == Delete
  {
    RetireStep(hash16, id, provider, o, 5);
    RetireShape(hash16, id, provider, o, 5);
    hide Sound, Owned, ApplyOne, Keys, Pending, Retiring;
    u := After(Some(o), ApplyOne(hash16, id, provider, ZERO_PUBLICATION, false, Some(o), 5));
    if u.Some? {
      RetiringHasPending(hash16, id, provider, u.value);
      assert u.value != o;
      DropsAllDue(hash16, id, provider, u.value, 5 + o.delay.nanos);
    }
  }

  /** A drop deletes a retiring object all of whose deadlines have passed. */
  lemma DropsAllDue(hash16: string -> string, id: Identity, provider: string, u: Object, t: int)
    requires Retiring(hash16, id, provider, u) && forall k :: k in Pending(u) ==> Pending(u)[k] <= t
    ensures ApplyOne(hash16, id, provider, ZERO_PUBLICATION, false, Some(u), t) == Delete
  {
    RetireStep(hash16, id, provider, u, t);
    RetireShape(hash16, id, provider, u, t);
    assert u.delay.Delay?;
    hide Sound, Owned, ApplyOne, KeysOf, PendingMap;
    assert AllDue(u, t) == Pending(u);
    assert Waiting(AllDue(u, t), t) == map[];
    var r := After(Some(u), ApplyOne(hash16, id, provider, ZERO_PUBLICATION, false, Some(u), t));
    assert r.Some? ==> Pending(r.value) == map[];
    if r.Some? {
      RetiringHasPending(hash16, id, provider, r.value);
      assert false;
    }
  }

  lemma RetireShape(hash16: string -> string, id: Identity, provider: string, o: Object, t: int)
    ensures
      var a := ApplyOne(hash16, id, provider, ZERO_PUBLICATION, false, Some(o), t);
      && !a.Create?
      && (After(Some(o), a).None? ==> a.Delete?)
      && (After(Some(o), a) != Some(o) && !a.Delete? ==> a.Update?)
  {
    hide Build, Equivalent;
  }
}
