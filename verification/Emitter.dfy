/** The rate limiter itself: a map of sources to list elements and a list in recency order, updated in
    place. Each call is a step of module Diagnostics. */
module Emitter {
  import opened Ordering
  import opened Diagnostics

  class Element {
    const key: Source
    var lastEmitted: Conditions

    constructor (key: Source)
      ensures this.key == key && lastEmitted == map[]
    {
      this.key := key;
      lastEmitted := map[];
    }
  }

  function Keys(lru: seq<Element>): (r: seq<Source>)
    ensures |r| == |lru| && forall i :: 0 <= i < |r| ==> r[i] == lru[i].key
  {
    seq(|lru|, i requires 0 <= i < |lru| => lru[i].key)
  }

  /** The list without the element of a source. */
  function Remove(lru: seq<Element>, s: Source): seq<Element> {
    if lru == [] then []
    else
      var n := |lru| - 1;
      if lru[n].key == s then Remove(lru[..n], s) else Remove(lru[..n], s) + [lru[n]]
  }

  lemma {:induction false} RemoveKeys(lru: seq<Element>, s: Source)
    ensures Keys(Remove(lru, s)) == Without(Keys(lru), {s})
    ensures forall i :: 0 <= i < |Remove(lru, s)| ==> Remove(lru, s)[i] in lru && Remove(lru, s)[i].key != s
    ensures forall i :: 0 <= i < |lru| && lru[i].key != s ==> lru[i] in Remove(lru, s)
  {
    if lru != [] {
      var n := |lru| - 1;
      RemoveKeys(lru[..n], s);
      assert Keys(lru)[..n] == Keys(lru[..n]);
      assert lru == lru[..n] + [lru[n]];
      assert Keys(Remove(lru[..n], s) + [lru[n]]) == Keys(Remove(lru[..n], s)) + [lru[n].key];
    }
  }

  /** `evictOldestCondition`: the map is walked in any order. */
  method EvictOldest(conditions: Conditions, protected: Diagnostic) returns (r: Conditions)
    ensures conditions.Keys <= {protected} ==> r == conditions
    ensures !(conditions.Keys <= {protected}) ==> OldestGone(conditions, protected, r)
  {
    var todo := conditions.Keys;
    var oldest, oldestAt, first := protected, 0, true;
    while todo != {}
      invariant todo <= conditions.Keys
      invariant first ==> forall x :: x in conditions && x !in todo ==> x == protected
      invariant !first ==> oldest in conditions && oldest != protected && oldestAt == conditions[oldest]
      invariant !first ==> forall x :: x in conditions && x !in todo && x != protected ==> oldestAt <= conditions[x]
      decreases todo
    {
      var key :| key in todo;
      todo := todo - {key};
      if key == protected {
        continue;
      }
      if first || conditions[key] < oldestAt {
        oldest, oldestAt, first := key, conditions[key], false;
      }
    }
    r := conditions;
    if !first {
      r := conditions - {oldest};
    }
  }

  /** The map and the list are in bijection. */
  ghost predicate Linked(entries: map<Source, Element>, lru: seq<Element>) {
    && (forall k :: k in entries ==> entries[k] in lru && entries[k].key == k)
    && (forall i :: 0 <= i < |lru| ==> lru[i].key in entries && entries[lru[i].key] == lru[i])
    && Distinct(Keys(lru))
  }

  lemma ConsDistinct(order: seq<Source>, s: Source)
    requires Distinct(order)
    ensures Distinct([s] + Without(order, {s}))
  {
    WithoutMembers(order, {s});
    var rest := Without(order, {s});
    hide Without;
    forall j | 0 <= j < |rest| ensures rest[j] != s { assert rest[j] in rest; }
  }

  lemma LinkedFront(entries: map<Source, Element>, lru: seq<Element>, key: Source)
    requires Linked(entries, lru) && key in entries
    ensures Linked(entries, [entries[key]] + Remove(lru, key))
    ensures Keys([entries[key]] + Remove(lru, key)) == [key] + Without(Keys(lru), {key})
  {
    RemoveKeys(lru, key);
    ConsDistinct(Keys(lru), key);
    hide Remove, Without, Distinct;
    var rest := Remove(lru, key);
    var front := [entries[key]] + rest;
    assert Keys(front) == [key] + Keys(rest);
    assert front[0] == entries[key];
    forall k | k in entries ensures entries[k] in front {
      var i :| 0 <= i < |lru| && lru[i] == entries[k];
      assert k != key ==> lru[i] in rest;
    }
    forall i | 0 <= i < |front| ensures front[i].key in entries && entries[front[i].key] == front[i] {
      if i > 0 { assert front[i] == rest[i - 1]; }
    }
  }

  lemma LinkedDistinct(entries: map<Source, Element>, lru: seq<Element>)
    requires Linked(entries, lru)
    ensures Distinct(Keys(lru))
  {
  }

  lemma EntryAt(entries: map<Source, Element>, lru: seq<Element>, key: Source)
    requires Linked(entries, lru) && key in entries
    ensures entries[key].key == key
  {
  }

  lemma FrontMembers(entries: map<Source, Element>, lru: seq<Element>, key: Source)
    requires Linked(entries, lru) && key in entries
    ensures
      var front := [entries[key]] + Remove(lru, key);
      entries[key] in front && forall i :: 0 <= i < |front| ==> front[i] in lru
  {
    RemoveKeys(lru, key);
    hide Remove;
    var front := [entries[key]] + Remove(lru, key);
    assert front[0] == entries[key];
  }

  lemma LinkedWithout(entries: map<Source, Element>, lru: seq<Element>, key: Source)
    requires Linked(entries, lru)
    ensures Linked(entries - {key}, Remove(lru, key)) && Keys(Remove(lru, key)) == Without(Keys(lru), {key})
  {
    RemoveKeys(lru, key);
    WithoutMembers(Keys(lru), {key});
    hide Remove, Without;
    forall k | k in entries && k != key ensures entries[k] in Remove(lru, key) {
      var i :| 0 <= i < |lru| && lru[i] == entries[k];
    }
  }

  /** What is left of the map when only the front of the list stays. */
  function Front(entries: map<Source, Element>, lru: seq<Element>): map<Source, Element> {
    map k | k in entries && k in Keys(lru) :: entries[k]
  }

  lemma FrontIs(entries: map<Source, Element>, lru: seq<Element>)
    ensures forall k :: k in Front(entries, lru) <==> k in entries && k in Keys(lru)
    ensures forall k :: k in Front(entries, lru) ==> Front(entries, lru)[k] == entries[k]
  {
  }

  lemma LinkedPrefix(entries: map<Source, Element>, lru: seq<Element>, n: nat)
    requires Linked(entries, lru) && n <= |lru|
    ensures Linked(Front(entries, lru[..n]), lru[..n])
  {
    var part := lru[..n];
    assert Keys(part) == Keys(lru)[..n];
    forall i | 0 <= i < |part|
      ensures part[i].key in Keys(part) && part[i].key in entries && entries[part[i].key] == part[i]
    {
      assert Keys(part)[i] == part[i].key;
      assert lru[i] == part[i];
    }
    forall k | k in Front(entries, part) ensures entries[k] in part {
      var i :| 0 <= i < |part| && Keys(part)[i] == k;
      assert lru[i] == part[i];
    }
  }

  lemma FrontShorter(entries: map<Source, Element>, lru: seq<Element>, n: nat)
    requires Linked(entries, lru) && n < |lru|
    ensures Front(entries, lru[..n + 1]) - {lru[n].key} == Front(entries, lru[..n])
  {
    var a, b := Keys(lru[..n + 1]), Keys(lru[..n]);
    assert a == b + [lru[n].key];
    assert Keys(lru)[..n] == b;
    assert lru[n].key !in b;
  }

  lemma FrontWhole(entries: map<Source, Element>, lru: seq<Element>)
    requires Linked(entries, lru)
    ensures Front(entries, lru) == entries
  {
    forall k | k in entries ensures k in Keys(lru) {
      var i :| 0 <= i < |lru| && lru[i] == entries[k];
      assert Keys(lru)[i] == k;
    }
  }

  lemma LinkedPush(entries: map<Source, Element>, lru: seq<Element>, e: Element)
    requires Linked(entries, lru) && e.key !in entries
    ensures Linked(entries[e.key := e], [e] + lru) && Keys([e] + lru) == [e.key] + Keys(lru)
  {
    var more := [e] + lru;
    assert Keys(more) == [e.key] + Keys(lru);
    assert e in more;
  }

  class DiagnosticEmitter {
    const limits: Limits
    var entries: map<Source, Element>
    var lru: seq<Element>

    constructor (limits: Limits)
      ensures this.limits == limits && Valid() && State() == Cache([], map[]) && lru == []
    {
      this.limits := limits;
      entries := map[];
      lru := [];
    }

    ghost predicate Valid()
      reads this
    {
      Linked(entries, lru)
    }

    ghost function State(): Cache
      reads this, lru
      requires Valid()
    {
      Cache(Keys(lru), map k | k in entries :: entries[k].lastEmitted)
    }

    /** The loop that makes room for a new source. */
    method MakeRoom()
      requires Valid()
      modifies this
      ensures Valid() && entries == Front(old(entries), lru)
      ensures
        var capacity := Capacity(limits.capacity);
        lru == if |old(lru)| >= capacity then old(lru)[..capacity - 1] else old(lru)
      ensures State() == Cache(Keys(lru), Only(old(State()).last, Keys(lru)))
    {
      hide Linked, Front;
      var capacity := Capacity(limits.capacity);
      FrontWhole(entries, lru);
      assert old(lru)[..|lru|] == old(lru);
      while |lru| >= capacity
        invariant |lru| <= |old(lru)| && lru == old(lru)[..|lru|]
        invariant |lru| >= capacity - 1 || lru == old(lru)
        invariant entries == Front(old(entries), lru)
      {
        var n := |lru| - 1;
        FrontShorter(old(entries), old(lru), n);
        var oldest := lru[n];
        entries := entries - {oldest.key};
        lru := lru[..n];
      }
      LinkedPrefix(old(entries), old(lru), |lru|);
      ghost var last := old(State()).last;
      assert last.Keys == old(entries).Keys;
      assert State().last == Only(last, Keys(lru)) by {
        FrontIs(old(entries), lru);
      }
    }

    method MoveToFront(key: Source)
      requires Valid() && key in entries
      modifies this
      ensures Valid() && entries == old(entries) && entries[key] in lru && entries[key].key == key
      ensures forall i :: 0 <= i < |lru| ==> lru[i] in old(lru)
      ensures State() == Cache([key] + Without(old(State()).order, {key}), old(State()).last)
    {
      hide Remove, Without, Linked, Keys, Distinct;
      var e := entries[key];
      EntryAt(entries, lru, key);
      LinkedFront(entries, lru, key);
      FrontMembers(entries, lru, key);
      ghost var last := State().last;
      lru := [e] + Remove(lru, key);
      assert State().last == last;
    }

    method PushFront(key: Source) returns (e: Element)
      requires Valid() && key !in entries
      modifies this
      ensures Valid() && entries == old(entries)[key := e] && lru == [e] + old(lru) && fresh(e) && e.key == key
      ensures State() == Cache([key] + old(State()).order, old(State()).last[key := map[]])
    {
      hide Linked, Distinct, Keys;
      e := new Element(key);
      LinkedPush(entries, lru, e);
      lru := [e] + lru;
      entries := entries[key := e];
    }

    /** `state` */
    method Touched(key: Source) returns (e: Element)
      requires Valid()
      modifies this
      ensures Valid() && key in entries && e == entries[key] && e in lru && e.key == key
      ensures forall i :: 0 <= i < |lru| ==> lru[i] in old(lru) || fresh(lru[i])
      ensures State() == Touch(old(State()), key, Capacity(limits.capacity))
    {
      hide Linked;
      if key in entries {
        e := entries[key];
        MoveToFront(key);
        return;
      }
      MakeRoom();
      ghost var room := Keys(lru);
      ghost var all, capacity := old(Keys(lru)), Capacity(limits.capacity);
      assert room == if |all| >= capacity then all[..capacity - 1] else all;
      FrontIs(old(entries), lru);
      e := PushFront(key);
    }

    /** The table of one source changes, nothing else does. */
    method Store(e: Element, table: Conditions)
      requires Valid() && e in lru
      modifies e
      ensures Valid() && e.key in entries && entries == old(entries) && lru == old(lru)
      ensures State() == Cache(old(State()).order, old(State()).last[e.key := table])
    {
      EntryOf(entries, lru, e);
      hide Linked;
      e.lastEmitted := table;
    }

    /** `report`: whether the diagnostic is to be emitted. */
    method ReportDiagnostic(key: Source, diagnostic: Diagnostic, now: int) returns (emit: bool)
      requires Valid()
      modifies this, lru
      ensures Valid() && forall i :: 0 <= i < |lru| ==> lru[i] in old(lru) || fresh(lru[i])
      ensures Step(limits, old(State()), Report(key, diagnostic, now, emit), State())
    {
      hide Linked, Touch, Step;
      ghost var before := State();
      var e := Touched(key);
      ghost var t := State();
      assert t.last[key] == e.lastEmitted;
      var table := e.lastEmitted;
      emit := ShouldEmit(table, diagnostic, now, limits.interval);
      if emit {
        table := table[diagnostic := now];
        if |table| > CONDITION_LIMIT {
          TooMany(table, diagnostic);
          table := EvictOldest(table, diagnostic);
        }
        Store(e, table);
      }
      ReportIsStep(limits, before, t, Report(key, diagnostic, now, emit), table, State());
    }

    /** `clearMissing` */
    method ClearMissing(key: Source, seen: set<Diagnostic>)
      requires Valid()
      modifies this, lru
      ensures Valid() && forall i :: 0 <= i < |lru| ==> lru[i] in old(lru)
      ensures Step(limits, old(State()), Clear(key, seen), State())
    {
      hide Linked, Without, Step, Distinct, Keys;
      ghost var before := State();
      assert Distinct(before.order) by { LinkedDistinct(entries, lru); }
      if key !in entries {
        ClearIsStep(limits, before, key, seen, before);
        return;
      }
      var e := entries[key];
      MoveToFront(key);
      assert State().last[key] == e.lastEmitted;
      var left := KeepSeen(e.lastEmitted, seen);
      EntryOf(entries, lru, e);
      ghost var front := State();
      if left == map[] {
        Drop(key);
      } else {
        Store(e, left);
      }
      DropFront(before.order, key);
      ClearIsStep(limits, before, key, seen, State());
    }

    /** `deleteSource` */
    method DeleteSource(kind: string, namespace: string, name: string)
      requires Valid()
      modifies this
      ensures Valid() && forall i :: 0 <= i < |lru| ==> lru[i] in old(lru)
      ensures Step(limits, old(State()), Delete(kind, namespace, name), State())
    {
      hide Linked, Without, Distinct, Keys, Step, Sifted, Less;
      ghost var before := State();
      ghost var event := Delete(kind, namespace, name);
      var todo := entries.Keys;
      ghost var gone: set<Source> := {};
      LessNone(before);
      LinkedOrder(entries, lru);
      assert forall s :: s in before.order <==> s in before.last;
      AllTodo(before, event);
      assert todo == before.last.Keys;
      while todo != {}
        invariant Valid() && Sifted(before, event, todo, gone)
        invariant forall i :: 0 <= i < |lru| ==> lru[i] in old(lru)
        invariant State() == Less(before, gone)
        decreases todo
      {
        var key :| key in todo;
        Sift(before, event, todo, gone, key);
        todo := todo - {key};
        if key.kind == kind && key.namespace == namespace && key.name == name {
          LessTwice(before, gone, key);
          Drop(key);
          gone := gone + {key};
        }
      }
      AllSifted(before, event, gone);
      DeleteIsStep(limits, before, event, gone, State());
    }

    method Drop(key: Source)
      requires Valid()
      modifies this
      ensures Valid() && forall i :: 0 <= i < |lru| ==> lru[i] in old(lru)
      ensures State() == Less(old(State()), {key})
    {
      hide Linked, Remove, Without, Distinct, Keys;
      LinkedWithout(entries, lru, key);
      RemoveKeys(lru, key);
      entries := entries - {key};
      lru := Remove(lru, key);
    }
  }

  /** A cache without some sources. */
  function Less(c: Cache, gone: set<Source>): Cache { Cache(Without(c.order, gone), c.last - gone) }

  lemma LessNone(c: Cache)
    ensures Less(c, {}) == c
  {
    WithoutNone(c.order, {});
    assert c.last - {} == c.last;
  }

  lemma LessTwice(c: Cache, gone: set<Source>, key: Source)
    ensures Less(Less(c, gone), {key}) == Less(c, gone + {key})
  {
    WithoutTwice(c.order, gone, {key});
    assert c.last - gone - {key} == c.last - (gone + {key});
  }

  /** The sources still to look at, and those found to be named. */
  ghost predicate Sifted(c: Cache, e: Event, todo: set<Source>, gone: set<Source>)
    requires e.Delete?
  {
    && todo !! gone && todo <= c.last.Keys && gone <= c.last.Keys
    && forall k :: k in c.last && k !in todo ==> (k in gone <==> Names(e, k))
  }

  lemma AllTodo(c: Cache, e: Event)
    requires e.Delete?
    ensures Sifted(c, e, c.last.Keys, {})
  {
  }

  lemma Sift(c: Cache, e: Event, todo: set<Source>, gone: set<Source>, key: Source)
    requires e.Delete? && Sifted(c, e, todo, gone) && key in todo
    ensures Sifted(c, e, todo - {key}, if Names(e, key) then gone + {key} else gone)
  {
  }

  lemma AllSifted(c: Cache, e: Event, gone: set<Source>)
    requires e.Delete? && Sifted(c, e, {}, gone)
    ensures gone <= c.last.Keys && forall k :: k in c.last ==> (k in gone <==> Names(e, k))
  {
  }

  lemma ReportIsStep(l: Limits, c: Cache, t: Cache, e: Event, table: Conditions, c': Cache)
    requires e.Report? && t == Touch(c, e.source, Capacity(l.capacity)) && e.source in t.last
    requires e.emitted == ShouldEmit(t.last[e.source], e.diagnostic, e.now, l.interval)
    requires if e.emitted then Emitted(t.last[e.source], e.diagnostic, e.now, table) else table == t.last[e.source]
    requires c' == if e.emitted then Cache(t.order, t.last[e.source := table]) else t
    ensures Step(l, c, e, c')
  {
    hide Touch, Emitted;
    assert t.last == t.last[e.source := t.last[e.source]];
  }

  lemma DeleteIsStep(l: Limits, c: Cache, e: Event, gone: set<Source>, c': Cache)
    requires e.Delete? && gone <= c.last.Keys && forall k :: k in c.last ==> (k in gone <==> Names(e, k))
    requires forall s :: s in c.order <==> s in c.last
    requires c' == Less(c, gone)
    ensures Step(l, c, e, c')
  {
    hide Without;
    assert gone == Named(c.order, e);
  }

  lemma LinkedOrder(entries: map<Source, Element>, lru: seq<Element>)
    requires Linked(entries, lru)
    ensures forall k :: k in Keys(lru) <==> k in entries
  {
    forall k | k in entries ensures k in Keys(lru) {
      var i :| 0 <= i < |lru| && lru[i] == entries[k];
      assert Keys(lru)[i] == k;
    }
  }

  lemma ClearIsStep(l: Limits, c: Cache, s: Source, seen: set<Diagnostic>, c': Cache)
    requires c' == ClearCache(c, s, seen)
    ensures Step(l, c, Clear(s, seen), c')
  {
  }

  lemma DropFront(order: seq<Source>, s: Source)
    requires Distinct(order)
    ensures Without([s] + Without(order, {s}), {s}) == Without(order, {s})
  {
    WithoutMembers(order, {s});
    FrontGone(s, Without(order, {s}));
  }

  lemma {:induction false} FrontGone(s: Source, rest: seq<Source>)
    requires s !in rest
    ensures Without([s] + rest, {s}) == rest
  {
    var n := |rest| - 1;
    var all := [s] + rest;
    if rest != [] {
      assert all[..|all| - 1] == [s] + rest[..n];
      assert rest[n] in rest;
      FrontGone(s, rest[..n]);
    } else {
      assert all[..0] == [];
    }
  }

  /** Removing twice is removing the union. */
  lemma {:induction false} WithoutTwice(order: seq<Source>, a: set<Source>, b: set<Source>)
    ensures Without(Without(order, a), b) == Without(order, a + b)
  {
    if order != [] {
      var n := |order| - 1;
      WithoutTwice(order[..n], a, b);
      var rest := Without(order[..n], a);
      assert (rest + [order[n]])[..|rest|] == rest;
    }
  }

  lemma EntryOf(entries: map<Source, Element>, lru: seq<Element>, e: Element)
    requires Linked(entries, lru) && e in lru
    ensures e.key in entries && entries[e.key] == e
    ensures forall k :: k in entries && entries[k] == e ==> k == e.key
  {
    var i :| 0 <= i < |lru| && lru[i] == e;
  }

  lemma TooMany(table: Conditions, d: Diagnostic)
    requires |table| > CONDITION_LIMIT
    ensures !(table.Keys <= {d})
  {
    if table.Keys <= {d} {
      SubsetSize(table.Keys, {d});
      assert false;
    }
  }

  /** The loop of `clearMissing` over the table. */
  method KeepSeen(table: Conditions, seen: set<Diagnostic>) returns (r: Conditions)
    ensures r == Seen(table, seen)
  {
    r := table;
    var todo := table.Keys;
    while todo != {}
      invariant todo <= table.Keys
      invariant r == map d | d in table && (d in todo || d in seen) :: table[d]
      decreases todo
    {
      var d :| d in todo;
      todo := todo - {d};
      if d !in seen {
        r := r - {d};
      }
    }
  }
}
