/** `Apply` over all providers of a source: the checks, the fold over the sorted providers, isolation of
    the objects, and quiescence of the whole. */
module Apply {
  import opened Ordering
  import opened Endpoints
  import opened Lifecycle
  import opened Objects
  import opened WriterSpec
  import opened WriterLaws
  import opened AdvanceLaws
  import opened Acceptance
  import opened Records
  import opened Builder
  import Protocol

  type Key = Protocol.ObjectKey
  type Stored = map<Key, Object>

  function KeyFor(hash16: string -> string, id: Identity, provider: string): Key {
    Protocol.ObjectKey(id.namespace, ObjectName(hash16, id, provider))
  }

  function At(objects: Stored, key: Key): Option<Object> { if key in objects then Some(objects[key]) else None }

  function Write(objects: Stored, key: Key, a: Action): Stored {
    match a
    case Create(o) => objects[key := o]
    case Update(o) => objects[key := o]
    case Delete => objects - {key}
    case _ => objects
  }

  /** The objects `Apply` lists for a source. */
  predicate Mine(hash16: string -> string, id: Identity, key: Key, o: Object) {
    && key.namespace == id.namespace
    && Lookup(o.labels, ManagedBy) == MANAGED_BY_VALUE
    && Lookup(o.labels, SourceKeyLabel) == SourceKey(hash16, id)
  }

  function ListedKeys(hash16: string -> string, id: Identity, objects: Stored): set<Key> {
    set k | k in objects && Mine(hash16, id, k, objects[k])
  }

  ghost predicate GoodListing(hash16: string -> string, id: Identity, objects: Stored) {
    forall k :: k in ListedKeys(hash16, id, objects) ==> ListingAccepts(hash16, id, objects[k])
  }

  function ListedProviders(hash16: string -> string, id: Identity, objects: Stored): set<string> {
    set k | k in ListedKeys(hash16, id, objects) :: Lookup(objects[k].labels, Provider)
  }

  /** Two listed objects never name the same provider. */
  ghost predicate OneEach(hash16: string -> string, id: Identity, objects: Stored) {
    forall j, k :: j in ListedKeys(hash16, id, objects) && k in ListedKeys(hash16, id, objects) && j != k ==>
      Lookup(objects[j].labels, Provider) != Lookup(objects[k].labels, Provider)
  }

  ghost predicate GoodPublications(pubs: seq<Publication>) {
    && (forall i :: 0 <= i < |pubs| ==> pubs[i].providerName != "" && pubs[i].deletionDelay >= 0)
    && (forall i, j :: 0 <= i < j < |pubs| ==> pubs[i].providerName != pubs[j].providerName)
  }

  function Desired(pubs: seq<Publication>): map<string, Publication> {
    if pubs == [] then map[] else Desired(pubs[..|pubs| - 1])[pubs[|pubs| - 1].providerName := pubs[|pubs| - 1]]
  }

  function PublicationOf(desired: map<string, Publication>, provider: string): Publication {
    if provider in desired then desired[provider] else ZERO_PUBLICATION
  }

  /** What `applyOne` does for one provider of the source. */
  ghost function One(hash16: string -> string, id: Identity, desired: map<string, Publication>, provider: string,
                     current: Option<Object>, now: int): Action
  {
    ApplyOne(hash16, id, provider, PublicationOf(desired, provider), provider in desired, current, now)
  }

  predicate Stops(a: Action) { a.Fail? || a.Panic? }

  datatype Outcome = Outcome(ok: bool, objects: Stored)

  /** The loop over the providers: it stops at the first error and keeps what was written before it. */
  ghost function Fold(hash16: string -> string, id: Identity, desired: map<string, Publication>, objects: Stored,
                      providers: seq<string>, clock: string -> int): Outcome
  {
    if providers == [] then Outcome(true, objects)
    else
      var n := |providers| - 1;
      var before := Fold(hash16, id, desired, objects, providers[..n], clock);
      if !before.ok then before
      else
        var key := KeyFor(hash16, id, providers[n]);
        var a := One(hash16, id, desired, providers[n], At(before.objects, key), clock(providers[n]));
        Outcome(!Stops(a), Write(before.objects, key, a))
  }

  /** No two of these providers share an object. */
  ghost predicate Isolated(hash16: string -> string, id: Identity, providers: seq<string>) {
    forall i, j :: 0 <= i < j < |providers| ==> KeyFor(hash16, id, providers[i]) != KeyFor(hash16, id, providers[j])
  }

  ghost predicate Own(hash16: string -> string, id: Identity, providers: seq<string>, key: Key) {
    exists p :: p in providers && key == KeyFor(hash16, id, p)
  }

  /** The outcome of one provider on the objects it started from. */
  ghost predicate DoneFor(hash16: string -> string, id: Identity, desired: map<string, Publication>, objects: Stored,
                          p: string, clock: string -> int, after: Stored)
  {
    var key := KeyFor(hash16, id, p);
    var a := One(hash16, id, desired, p, At(objects, key), clock(p));
    !Stops(a) && At(after, key) == After(At(objects, key), a)
  }

  lemma WriteAt(objects: Stored, key: Key, a: Action, other: Key)
    ensures At(Write(objects, key, a), key) == After(At(objects, key), a)
    ensures other != key ==> At(Write(objects, key, a), other) == At(objects, other)
  {
  }

  /** ISOLATION of the fold. Each provider's object is exactly what `applyOne` makes of it, as if it were
      alone; every other object is untouched. The fold succeeds exactly when every provider would. */
  lemma {:induction false} FoldExact(hash16: string -> string, id: Identity, desired: map<string, Publication>,
                                     objects: Stored,
                                     providers: seq<string>, clock: string -> int)
    requires Isolated(hash16, id, providers)
    ensures
      var r := Fold(hash16, id, desired, objects, providers, clock);
      && (r.ok <==> forall i :: 0 <= i < |providers| ==>
            !Stops(One(hash16, id, desired, providers[i], At(objects, KeyFor(hash16, id, providers[i])),
                clock(providers[i]))))
      && (r.ok ==> forall i :: 0 <= i < |providers| ==>
        DoneFor(hash16, id, desired, objects, providers[i], clock, r.objects))
      && (forall key :: !Own(hash16, id, providers, key) ==> At(r.objects, key) == At(objects, key))
  {
    hide One, KeyFor, Stops;
    if providers != [] {
      var n := |providers| - 1;
      var rest := providers[..n];
      FoldExact(hash16, id, desired, objects, rest, clock);
      var before := Fold(hash16, id, desired, objects, rest, clock);
      var r := Fold(hash16, id, desired, objects, providers, clock);
      var last := KeyFor(hash16, id, providers[n]);
      assert !Own(hash16, id, rest, last);
      assert At(before.objects, last) == At(objects, last);
      var a := One(hash16, id, desired, providers[n], At(objects, last), clock(providers[n]));
      forall key ensures key == last || !before.ok || At(r.objects, key) == At(before.objects, key) {
        WriteAt(before.objects, last, a, key);
      }
      WriteAt(before.objects, last, a, last);
      hide At, Write, After;
      forall i | 0 <= i < n ensures providers[i] == rest[i] { }
      forall key | !Own(hash16, id, providers, key) ensures !Own(hash16, id, rest, key) && key != last {
        assert providers[n] in providers;
      }
    }
  }

  /** What the writer needs of a publication, beyond what it checks: see WellResolved. */
  ghost predicate Targeted(pub: Publication) {
    GoodPublication(pub) && (pub.records != [] ==> DesiredKeys(pub.records) != {})
  }

  lemma EquivalentIsSame(o: Object, b: Object)
    requires Sound(o) && Sound(b) && Equivalent(o, b) && o.namespace == b.namespace && o.name == b.name
    ensures o == b
  {
    NormalViews(o);
    NormalViews(b);
  }

  lemma EmptyBuild(hash16: string -> string, id: Identity, provider: string, pub: Publication, current: Option<Object>,
                   now: int)
    requires Targeted(pub) && Build(hash16, id, provider, pub, current, now).Nothing?
    ensures pub.records == []
  {
    hide Kept, DesiredKeys;
  }

  lemma CreateBuilds(hash16: string -> string, id: Identity, provider: string, pub: Publication, now: int)
    requires Targeted(pub) && pub.records != []
    ensures Build(hash16, id, provider, pub, None, now).Built?
  {
    hide DesiredKeys;
  }

  /** One provider, twice: whatever the first `applyOne` did, the second before any deadline does nothing. */
  lemma OneQuiet(hash16: string -> string, id: Identity, desired: map<string, Publication>, p: string,
                 current: Option<Object>, t1: int, t2: int)
    requires Targeted(PublicationOf(desired, p)) && SoundOr(current)
    requires current.Some? ==> Owned(hash16, id, p, current.value)
    requires
      var after := After(current, One(hash16, id, desired, p, current, t1));
      after.Some? ==> forall k :: k in Pending(after.value) ==> Pending(after.value)[k] > t2
    ensures !Stops(One(hash16, id, desired, p, current, t1))
    ensures One(hash16, id, desired, p, After(current, One(hash16, id, desired, p, current, t1)), t2) == NoWrite
  {
    hide Build, Sound, Equivalent, GoodPublication, DesiredKeys, Pending, Owned;
    var pub, selected := PublicationOf(desired, p), p in desired;
    var b := Build(hash16, id, p, pub, current, t1);
    if current.None? {
      if selected && pub.records != [] {
        CreateBuilds(hash16, id, p, pub, t1);
        Quiescent(hash16, id, p, pub, current, t1, t2, selected);
      }
    } else {
      BuildSound(hash16, id, p, pub, current, t1);
      if b.Built? {
        if Equivalent(current.value, b.obj) {
          BuiltIsAssembled(hash16, id, p, pub, current, t1);
          EquivalentIsSame(current.value, b.obj);
        }
        assert After(current, One(hash16, id, desired, p, current, t1)) == Some(b.obj);
        Quiescent(hash16, id, p, pub, current, t1, t2, selected);
      } else {
        assert b.Nothing?;
        EmptyBuild(hash16, id, p, pub, current, t1);
      }
    }
  }

  /** An object of the source and provider its key says. */
  ghost predicate Belongs(hash16: string -> string, id: Identity, p: string, o: Object) {
    && Sound(o) && Owned(hash16, id, p, o)
    && o.namespace == id.namespace && o.name == ObjectName(hash16, id, p)
  }

  lemma OneBelongs(hash16: string -> string, id: Identity, desired: map<string, Publication>, p: string,
                   current: Option<Object>, now: int)
    requires Targeted(PublicationOf(desired, p))
    requires current.Some? ==> Belongs(hash16, id, p, current.value)
    ensures
      var after := After(current, One(hash16, id, desired, p, current, now));
      after.Some? ==> Belongs(hash16, id, p, after.value)
  {
    hide Build, Sound, Equivalent, GoodPublication, DesiredKeys, Owned, ObjectName;
    var pub := PublicationOf(desired, p);
    var b := Build(hash16, id, p, pub, current, now);
    if current.Some? || pub.records != [] {
      BuildSound(hash16, id, p, pub, current, now);
      if b.Built? {
        BuiltIsAssembled(hash16, id, p, pub, current, now);
        LabelsOwn(hash16, id, p, b.obj, if current.Some? then current.value.labels else map[]);
      }
    }
  }

  lemma {:induction false} QuietFold(hash16: string -> string, id: Identity, desired: map<string, Publication>,
                                     objects: Stored,
                                     providers: seq<string>, clock: string -> int)
    requires
      forall p :: p in providers ==>
        One(hash16, id, desired, p, At(objects, KeyFor(hash16, id, p)), clock(p)) == NoWrite
    ensures Fold(hash16, id, desired, objects, providers, clock) == Outcome(true, objects)
  {
    hide One, KeyFor;
    if providers != [] {
      QuietFold(hash16, id, desired, objects, providers[..|providers| - 1], clock);
      assert providers[|providers| - 1] in providers;
    }
  }

  function Providers(hash16: string -> string, id: Identity, pubs: seq<Publication>, objects: Stored): set<string> {
    Desired(pubs).Keys + ListedProviders(hash16, id, objects)
  }

  /** `Apply` */
  ghost function ApplyAll(hash16: string -> string, id: Identity, pubs: seq<Publication>, objects: Stored,
                          clock: string -> int): Outcome {
    if !GoodListing(hash16, id, objects) || !OneEach(hash16, id, objects) || !GoodPublications(pubs)
        then Outcome(false, objects)
    else Fold(hash16, id, Desired(pubs), objects, SortedStrings(Providers(hash16, id, pubs, objects)), clock)
  }

  /** A store as the writer keeps it, as far as one source is concerned: what is listed for the source or
      lies under one of its names belongs to it. */
  ghost predicate WellKept(hash16: string -> string, id: Identity, providers: set<string>, objects: Stored) {
    && (forall k :: k in ListedKeys(hash16, id, objects) ==> KeptAt(hash16, id, objects, k))
    && (forall p :: p in providers && KeyFor(hash16, id, p) in objects ==>
      Belongs(hash16, id, p, objects[KeyFor(hash16, id, p)]))
  }

  ghost predicate KeptAt(hash16: string -> string, id: Identity, objects: Stored, k: Key)
    requires k in objects
  {
    var p := Lookup(objects[k].labels, Provider);
    p != "" && k == KeyFor(hash16, id, p) && Belongs(hash16, id, p, objects[k])
  }

  lemma KeptListing(hash16: string -> string, id: Identity, providers: set<string>, objects: Stored)
    requires WellKept(hash16, id, providers, objects)
    ensures GoodListing(hash16, id, objects) && OneEach(hash16, id, objects)
  {
    forall k | k in ListedKeys(hash16, id, objects) ensures ListingAccepts(hash16, id, objects[k]) {
      assert KeptAt(hash16, id, objects, k);
    }
    hide Belongs, ListingAccepts;
    forall j, k | j in ListedKeys(hash16, id, objects) && k in ListedKeys(hash16, id, objects) && j != k
      ensures Lookup(objects[j].labels, Provider) != Lookup(objects[k].labels, Provider)
    {
      assert KeptAt(hash16, id, objects, j) && KeptAt(hash16, id, objects, k);
    }
  }

  ghost predicate Distinguished(hash16: string -> string, id: Identity, providers: set<string>) {
    forall p, q :: p in providers && q in providers && p != q ==> KeyFor(hash16, id, p) != KeyFor(hash16, id, q)
  }

  lemma ListedIsolated(hash16: string -> string, id: Identity, providers: set<string>)
    requires Distinguished(hash16, id, providers)
    ensures Isolated(hash16, id, SortedStrings(providers))
  {
    hide KeyFor, SortedStrings;
    var list := SortedStrings(providers);
    SortedStringsLists(providers);
    forall i, j | 0 <= i < j < |list| ensures KeyFor(hash16, id, list[i]) != KeyFor(hash16, id, list[j]) {
      assert list[i] in list && list[j] in list;
    }
  }

  /** After the fold everything of the source still belongs to it, and nothing new is listed. */
  lemma KeptAfter(hash16: string -> string, id: Identity, desired: map<string, Publication>, objects: Stored,
                  providers: set<string>, clock: string -> int, after: Stored)
    requires WellKept(hash16, id, providers, objects) && Distinguished(hash16, id, providers)
    requires forall p :: p in providers ==> p != "" && Targeted(PublicationOf(desired, p))
    requires forall p :: p in providers ==> DoneFor(hash16, id, desired, objects, p, clock, after)
    requires forall key :: !Own(hash16, id, SortedStrings(providers), key) ==> At(after, key) == At(objects, key)
    requires ListedProviders(hash16, id, objects) <= providers
    ensures WellKept(hash16, id, providers, after) && ListedProviders(hash16, id, after) <= providers
  {
    SortedStringsLists(providers);
    hide SortedStrings, KeyFor, One, Belongs, Targeted;
    forall p | p in providers && KeyFor(hash16, id, p) in after
      ensures Belongs(hash16, id, p, after[KeyFor(hash16, id, p)])
    {
      assert DoneFor(hash16, id, desired, objects, p, clock, after);
      OneBelongs(hash16, id, desired, p, At(objects, KeyFor(hash16, id, p)), clock(p));
    }
    forall k | k in ListedKeys(hash16, id, after)
      ensures KeptAt(hash16, id, after, k) && Lookup(after[k].labels, Provider) in providers
    {
      if At(after, k) == At(objects, k) {
        ListedOwn(hash16, id, providers, objects, k);
      }
      var p :| p in SortedStrings(providers) && k == KeyFor(hash16, id, p);
      BelongsLabel(hash16, id, p, after[k]);
    }
  }

  lemma ListedOwn(hash16: string -> string, id: Identity, providers: set<string>, objects: Stored, k: Key)
    requires WellKept(hash16, id, providers, objects) && ListedProviders(hash16, id, objects) <= providers
    requires k in ListedKeys(hash16, id, objects)
    ensures Own(hash16, id, SortedStrings(providers), k)
  {
    SortedStringsLists(providers);
    assert KeptAt(hash16, id, objects, k);
    assert Lookup(objects[k].labels, Provider) in ListedProviders(hash16, id, objects);
  }

  lemma BelongsLabel(hash16: string -> string, id: Identity, p: string, o: Object)
    requires Belongs(hash16, id, p, o)
    ensures Lookup(o.labels, Provider) == p
  {
  }

  ghost predicate Due(hash16: string -> string, id: Identity, providers: set<string>, objects: Stored,
                      clock: string -> int) {
    exists p :: p in providers && DueFor(At(objects, KeyFor(hash16, id, p)), clock(p))
  }

  ghost predicate DueFor(current: Option<Object>, now: int) {
    current.Some? && exists k :: k in Pending(current.value) && Pending(current.value)[k] <= now
  }

  /** QUIESCENCE of `Apply`. From any store the writer keeps, with publications as resolved: the first call
      succeeds, and the same call again before any deadline writes nothing, for any provider. */
  lemma ApplyQuiet(hash16: string -> string, id: Identity, pubs: seq<Publication>, objects: Stored,
                   first: string -> int, second: string -> int)
    requires
      var providers := Providers(hash16, id, pubs, objects);
      && GoodPublications(pubs) && WellKept(hash16, id, providers, objects) && Distinguished(hash16, id, providers)
      && (forall p :: p in Desired(pubs) ==> Targeted(Desired(pubs)[p]))
      && !Due(hash16, id, providers, ApplyAll(hash16, id, pubs, objects, first).objects, second)
    ensures
      var r := ApplyAll(hash16, id, pubs, objects, first);
      r.ok && ApplyAll(hash16, id, pubs, r.objects, second) == Outcome(true, r.objects)
  {
    var providers := Providers(hash16, id, pubs, objects);
    var desired := Desired(pubs);
    hide ApplyAll, Fold, Desired, WellKept, Distinguished, Due, ListedProviders, GoodPublications;
    hide SortedStrings, DoneFor, Own, At, Providers;
    AllTargeted(hash16, id, pubs, objects);
    hide Targeted, PublicationOf;
    ApplyIsFold(hash16, id, pubs, objects, providers, first);
    FirstFold(hash16, id, desired, objects, providers, first);
    var after := ApplyAll(hash16, id, pubs, objects, first).objects;
    ListedAmong(hash16, id, pubs, objects);
    KeptAfter(hash16, id, desired, objects, providers, first, after);
    ApplyIsFold(hash16, id, pubs, after, providers, second);
    ProvidersAmong(hash16, id, pubs, objects, after);
    SecondFold(hash16, id, desired, objects, providers, first, after, Providers(hash16, id, pubs, after), second);
  }

  /** From a well kept store `Apply` succeeds. */
  lemma ApplySucceeds(hash16: string -> string, id: Identity, pubs: seq<Publication>, objects: Stored,
                      clock: string -> int)
    requires
      var providers := Providers(hash16, id, pubs, objects);
      && GoodPublications(pubs) && WellKept(hash16, id, providers, objects) && Distinguished(hash16, id, providers)
      && (forall p :: p in Desired(pubs) ==> Targeted(Desired(pubs)[p]))
    ensures ApplyAll(hash16, id, pubs, objects, clock).ok
  {
    hide ApplyAll, Fold, Desired, WellKept, Distinguished, GoodPublications, SortedStrings, DoneFor, Own, At, Providers;
    AllTargeted(hash16, id, pubs, objects);
    hide Targeted, PublicationOf;
    ApplyIsFold(hash16, id, pubs, objects, Providers(hash16, id, pubs, objects), clock);
    FirstFold(hash16, id, Desired(pubs), objects, Providers(hash16, id, pubs, objects), clock);
  }

  lemma AllTargeted(hash16: string -> string, id: Identity, pubs: seq<Publication>, objects: Stored)
    requires GoodPublications(pubs) && WellKept(hash16, id, Providers(hash16, id, pubs, objects), objects)
    requires forall p :: p in Desired(pubs) ==> Targeted(Desired(pubs)[p])
    ensures
      forall p :: p in Providers(hash16, id, pubs, objects) ==> p != "" && Targeted(PublicationOf(Desired(pubs), p))
  {
    FilledProviders(hash16, id, pubs, objects);
    assert Targeted(ZERO_PUBLICATION);
    hide Targeted;
  }

  lemma ApplyIsFold(hash16: string -> string, id: Identity, pubs: seq<Publication>, objects: Stored,
                    providers: set<string>, clock: string -> int)
    requires GoodPublications(pubs) && WellKept(hash16, id, providers, objects)
    ensures ApplyAll(hash16, id, pubs, objects, clock) ==
            Fold(hash16, id, Desired(pubs), objects, SortedStrings(Providers(hash16, id, pubs, objects)), clock)
  {
    KeptListing(hash16, id, providers, objects);
    hide Fold, SortedStrings, GoodListing, OneEach, WellKept, Providers;
  }

  lemma ListedAmong(hash16: string -> string, id: Identity, pubs: seq<Publication>, objects: Stored)
    ensures ListedProviders(hash16, id, objects) <= Providers(hash16, id, pubs, objects)
  {
    hide ListedProviders;
  }

  lemma ProvidersAmong(hash16: string -> string, id: Identity, pubs: seq<Publication>, objects: Stored, after: Stored)
    requires ListedProviders(hash16, id, after) <= Providers(hash16, id, pubs, objects)
    ensures Providers(hash16, id, pubs, after) <= Providers(hash16, id, pubs, objects)
  {
    hide ListedProviders;
  }

  lemma FirstFold(hash16: string -> string, id: Identity, desired: map<string, Publication>, objects: Stored,
                  providers: set<string>, clock: string -> int)
    requires WellKept(hash16, id, providers, objects) && Distinguished(hash16, id, providers)
    requires forall p :: p in providers ==> Targeted(PublicationOf(desired, p))
    ensures
      var r := Fold(hash16, id, desired, objects, SortedStrings(providers), clock);
      && r.ok
      && (forall p :: p in providers ==> DoneFor(hash16, id, desired, objects, p, clock, r.objects))
      && (forall key :: !Own(hash16, id, SortedStrings(providers), key) ==> At(r.objects, key) == At(objects, key))
  {
    var list := SortedStrings(providers);
    ListedIsolated(hash16, id, providers);
    SortedStringsLists(providers);
    FoldExact(hash16, id, desired, objects, list, clock);
    hide Fold, One, KeyFor, SortedStrings, Belongs, Targeted, Isolated, Own, Distinguished, PublicationOf;
    hide ListedKeys, KeptAt, StrictlySorted, StringLess;
    forall i | 0 <= i < |list|
      ensures !Stops(One(hash16, id, desired, list[i], At(objects, KeyFor(hash16, id, list[i])), clock(list[i])))
    {
      assert list[i] in list;
      FirstGoes(hash16, id, desired, list[i], At(objects, KeyFor(hash16, id, list[i])), clock(list[i]));
    }
    hide DoneFor, Stops, At;
    forall p | p in providers
      ensures DoneFor(hash16, id, desired, objects, p, clock, Fold(hash16, id, desired, objects, list, clock).objects)
    {
      assert p in list;
      var i :| 0 <= i < |list| && list[i] == p;
    }
  }

  lemma SecondFold(hash16: string -> string, id: Identity, desired: map<string, Publication>, objects: Stored,
                   providers: set<string>, first: string -> int, after: Stored, again: set<string>,
                   second: string -> int)
    requires WellKept(hash16, id, providers, objects) && again <= providers
    requires !Due(hash16, id, providers, after, second)
    requires forall p :: p in providers ==> Targeted(PublicationOf(desired, p))
    requires forall p :: p in providers ==> DoneFor(hash16, id, desired, objects, p, first, after)
    ensures Fold(hash16, id, desired, after, SortedStrings(again), second) == Outcome(true, after)
  {
    hide Fold, One, KeyFor, SortedStrings, Belongs, Targeted, PublicationOf, ListedKeys, KeptAt, DoneFor, DueFor;
    SortedStringsLists(again);
    forall p | p in again ensures One(hash16, id, desired, p, At(after, KeyFor(hash16, id, p)), second(p)) == NoWrite {
      SecondQuiet(hash16, id, desired, p, objects, first, after, second(p));
    }
    QuietFold(hash16, id, desired, after, SortedStrings(again), second);
  }

  lemma FilledProviders(hash16: string -> string, id: Identity, pubs: seq<Publication>, objects: Stored)
    requires GoodPublications(pubs) && WellKept(hash16, id, Providers(hash16, id, pubs, objects), objects)
    ensures forall p :: p in Providers(hash16, id, pubs, objects) ==> p != ""
  {
    forall p | p in Desired(pubs) ensures p != "" {
      var i := DesiredAt(pubs, p);
    }
    forall p | p in ListedProviders(hash16, id, objects) ensures p != "" {
      var k :| k in ListedKeys(hash16, id, objects) && p == Lookup(objects[k].labels, Provider);
      assert KeptAt(hash16, id, objects, k);
    }
  }

  lemma {:induction false} DesiredAt(pubs: seq<Publication>, p: string) returns (i: nat)
    requires p in Desired(pubs)
    ensures i < |pubs| && pubs[i].providerName == p && Desired(pubs)[p] == pubs[i]
  {
    i := |pubs| - 1;
    if pubs[i].providerName != p {
      i := DesiredAt(pubs[..i], p);
    }
  }

  lemma FirstGoes(hash16: string -> string, id: Identity, desired: map<string, Publication>, p: string,
                  current: Option<Object>, now: int)
    requires Targeted(PublicationOf(desired, p)) && (current.Some? ==> Belongs(hash16, id, p, current.value))
    ensures !Stops(One(hash16, id, desired, p, current, now))
  {
    hide Build, Sound, Equivalent, GoodPublication, DesiredKeys, Owned, ObjectName;
    var pub := PublicationOf(desired, p);
    if current.Some? {
      BuildSound(hash16, id, p, pub, current, now);
    } else if pub.records != [] {
      CreateBuilds(hash16, id, p, pub, now);
    }
  }

  lemma SecondQuiet(hash16: string -> string, id: Identity, desired: map<string, Publication>, p: string,
                    objects: Stored,
                    first: string -> int, after: Stored, now: int)
    requires Targeted(PublicationOf(desired, p))
    requires var key := KeyFor(hash16, id, p); key in objects ==> Belongs(hash16, id, p, objects[key])
    requires DoneFor(hash16, id, desired, objects, p, first, after)
    requires !DueFor(At(after, KeyFor(hash16, id, p)), now)
    ensures One(hash16, id, desired, p, At(after, KeyFor(hash16, id, p)), now) == NoWrite
  {
    hide One, Targeted, KeyFor, Sound, Owned, ObjectName, Pending;
    OneQuiet(hash16, id, desired, p, At(objects, KeyFor(hash16, id, p)), first(p), now);
  }

  method AllPublished(list: seq<PendingTarget>, ghost pending: map<TargetKey, int>, current: set<TargetKey>)
    returns (ok: bool)
    requires list == Listing(pending)
    ensures ok <==> pending.Keys <= current
  {
    hide Listing, StrictlySorted, KeyLess;
    ListingMembers(pending);
    for i := 0 to |list|
      invariant forall j :: 0 <= j < i ==> list[j].key in current
    {
      if list[i].key !in current {
        assert list[i] in list;
        return false;
      }
    }
    forall k | k in pending ensures k in current {
      assert Entry(pending, k) in list;
    }
    ok := true;
  }

  /** The checks of one listed object. */
  method CheckListed(hash16: string -> string, id: Identity, o: Object) returns (ok: bool)
    ensures ok <==> ListingAccepts(hash16, id, o)
  {
    hide Listing, KeysOf, PendingMap, IsNormalising, ObjectName, ValidText;
    var state := ParseLifecycle(o.lifecycle);
    if state.None? {
      return false;
    }
    assert o.lifecycle.Document? by { ValidIsDocument(o.lifecycle); }
    var normal := NormalizeEndpoints(o.endpoints);
    var currentTargets := EndpointTargets(normal);
    var published := AllPublished(state.value, Pending(o), currentTargets);
    var provider := Lookup(o.labels, Provider);
    ok := published && GoodDelay(o.delay) && provider != "" && o.name == ObjectName(hash16, id, provider);
  }

  lemma ValidIsDocument(text: LifecycleText)
    requires ValidText(text)
    ensures text.Document?
  {
  }

  method CheckPublications(pubs: seq<Publication>) returns (ok: bool, desired: map<string, Publication>)
    ensures ok <==> GoodPublications(pubs)
    ensures ok ==> desired == Desired(pubs)
  {
    desired := map[];
    for i := 0 to |pubs|
      invariant GoodPublications(pubs[..i]) && desired == Desired(pubs[..i])
      invariant forall p :: p in desired <==> exists j :: 0 <= j < i && pubs[j].providerName == p
    {
      assert pubs[..i + 1][..i] == pubs[..i];
      var publication := pubs[i];
      if publication.providerName in desired || publication.providerName == "" || publication.deletionDelay < 0 {
        return false, desired;
      }
      desired := desired[publication.providerName := publication];
    }
    assert pubs[..|pubs|] == pubs;
    ok := true;
  }

  /** `equivalent` */
  method SameObjects(a: Object, b: Object) returns (r: bool)
    ensures DistinctIds(a.endpoints) && DistinctIds(b.endpoints) ==> (r <==> Equivalent(a, b))
  {
    var x := NormalizeEndpoints(a.endpoints);
    var y := NormalizeEndpoints(b.endpoints);
    assert NormAttrs(AttrsOf(a.endpoints)) == StoredAttrs(a) && NormAttrs(AttrsOf(b.endpoints)) == StoredAttrs(b);
    r := x == y && a.labels == b.labels && a.annotations == b.annotations
         && a.delay == b.delay && a.lifecycle == b.lifecycle && a.owners == b.owners;
  }

  lemma BuiltDistinct(hash16: string -> string, id: Identity, provider: string, pub: Publication,
                      current: Option<Object>, now: int)
    requires Build(hash16, id, provider, pub, current, now).Built?
    ensures DistinctIds(Build(hash16, id, provider, pub, current, now).obj.endpoints)
  {
    var o := Build(hash16, id, provider, pub, current, now).obj;
    var keys := DesiredKeys(pub.records) + Kept(pub, current, now).Keys;
    var attrs := ChosenAttrs(pub.records, current, keys);
    LayoutMembers(attrs, keys);
    SortedIdsDistinct(Layout(attrs, keys));
    hide Layout, ChosenAttrs, DesiredKeys, Kept, Marshal;
  }

  /** One attempt of `applyOne` on the object read. */
  method Attempt(hash16: string -> string, id: Identity, provider: string, pub: Publication, selected: bool,
                 current: Option<Object>, now: int) returns (a: Action)
    ensures
      (current.Some? ==> DistinctIds(current.value.endpoints)) ==>
        a == ApplyOne(hash16, id, provider, pub, selected, current, now)
    ensures
      (current.Some? ==> DistinctIds(current.value.endpoints)) && (a.Create? || a.Update?) ==>
        DistinctIds(a.obj.endpoints)
  {
    hide Build, Equivalent, GoodPending;
    if current.None? {
      if !selected || |pub.records| == 0 {
        return NoWrite;
      }
      var created := BuildEndpoint(hash16, id, provider, pub, None, now);
      if created.Built? {
        BuiltDistinct(hash16, id, provider, pub, None, now);
        return Create(created.obj);
      }
      return Panic;
    }
    if !Owned(hash16, id, provider, current.value) {
      return Fail;
    }
    var updated := BuildEndpoint(hash16, id, provider, pub, current, now);
    if updated.Invalid? {
      return Fail;
    }
    if updated.Nothing? {
      return Delete;
    }
    var same := SameObjects(current.value, updated.obj);
    if DistinctIds(current.value.endpoints) {
      BuiltDistinct(hash16, id, provider, pub, current, now);
    }
    a := if same then NoWrite else Update(updated.obj);
  }

  ghost predicate NoRepeats(objects: Stored) { forall k :: k in objects ==> DistinctIds(objects[k].endpoints) }

  /** The writer and the objects it writes to, without interference: conflicts and stale reads are the
      subject of module Protocol. */
  class Writer {
    var objects: Stored

    constructor (initial: Stored)
      ensures objects == initial
    {
      objects := initial;
    }

    /** The listing part of `Apply`: all checks of all listed objects, and the providers found. */
    method ListProviders(hash16: string -> string, id: Identity) returns (ok: bool, providers: set<string>)
      ensures ok <==> GoodListing(hash16, id, objects) && OneEach(hash16, id, objects)
      ensures ok ==> providers == ListedProviders(hash16, id, objects)
    {
      hide ListingAccepts, Mine;
      var todo := ListedKeys(hash16, id, objects);
      ghost var done: set<Key> := {};
      providers := {};
      while todo != {}
        invariant done + todo == ListedKeys(hash16, id, objects) && done !! todo
        invariant forall k :: k in done ==> ListingAccepts(hash16, id, objects[k])
        invariant
          forall j, k :: j in done && k in done && j != k ==>
            Lookup(objects[j].labels, Provider) != Lookup(objects[k].labels, Provider)
        invariant providers == set k | k in done && k in objects :: Lookup(objects[k].labels, Provider)
        decreases todo
      {
        var k :| k in todo;
        assert k in ListedKeys(hash16, id, objects);
        var good := CheckListed(hash16, id, objects[k]);
        if !good {
          return false, providers;
        }
        var provider := Lookup(objects[k].labels, Provider);
        if provider in providers {
          return false, providers;
        }
        providers := providers + {provider};
        todo, done := todo - {k}, done + {k};
      }
      ok := true;
    }

    /** `applyOne` */
    method ApplyProvider(hash16: string -> string, id: Identity, provider: string, pub: Publication, selected: bool,
                         now: int)
      returns (ok: bool)
      modifies this
      ensures
        var key := KeyFor(hash16, id, provider);
        var a := ApplyOne(hash16, id, provider, pub, selected, At(old(objects), key), now);
        NoRepeats(old(objects)) ==> ok == !Stops(a) && objects == Write(old(objects), key, a) && NoRepeats(objects)
    {
      hide ApplyOne, KeyFor, DistinctIds;
      var key := KeyFor(hash16, id, provider);
      var a := Attempt(hash16, id, provider, pub, selected, At(objects, key), now);
      objects := Write(objects, key, a);
      ok := !Stops(a);
    }

    /** `Apply`. An error of the checks leaves the store as it was. */
    method Apply(hash16: string -> string, id: Identity, pubs: seq<Publication>, clock: string -> int)
      returns (ok: bool)
      modifies this
      ensures
        NoRepeats(old(objects)) ==>
          Outcome(ok, objects) == ApplyAll(hash16, id, pubs, old(objects), clock) && NoRepeats(objects)
      ensures !GoodPublications(pubs) || !GoodListing(hash16, id, old(objects)) ==> !ok && objects == old(objects)
    {
      hide GoodListing, OneEach, GoodPublications, ListedProviders, Desired, NoRepeats, One, KeyFor;
      var found;
      ok, found := ListProviders(hash16, id);
      if !ok {
        return;
      }
      var desired;
      ok, desired := CheckPublications(pubs);
      if !ok {
        return;
      }
      var providers := StringSet(desired.Keys + found);
      ghost var start := objects;
      for i := 0 to |providers|
        invariant NoRepeats(start) ==> NoRepeats(objects)
        invariant NoRepeats(start) ==> Fold(hash16, id, desired, start, providers[..i], clock) == Outcome(true, objects)
      {
        assert providers[..i + 1][..i] == providers[..i];
        var provider := providers[i];
        var publication := if provider in desired then desired[provider] else ZERO_PUBLICATION;
        OneIs(hash16, id, desired, provider, At(objects, KeyFor(hash16, id, provider)), clock(provider));
        ok := ApplyProvider(hash16, id, provider, publication, provider in desired, clock(provider));
        if !ok {
          assert NoRepeats(start) ==>
            Fold(hash16, id, desired, start, providers[..i + 1], clock) == Outcome(false, objects);
          FoldStops(hash16, id, desired, start, providers, i + 1, clock);
          return;
        }
      }
      assert providers[..|providers|] == providers;
    }
  }

  lemma OneIs(hash16: string -> string, id: Identity, desired: map<string, Publication>, p: string,
              current: Option<Object>, now: int)
    ensures One(hash16, id, desired, p, current, now) ==
            ApplyOne(hash16, id, p, if p in desired then desired[p] else ZERO_PUBLICATION, p in desired, current, now)
  {
  }

  lemma {:induction false} FoldStops(hash16: string -> string, id: Identity, desired: map<string, Publication>,
                                     objects: Stored,
                                     providers: seq<string>, i: nat, clock: string -> int)
    requires i <= |providers|
    ensures !Fold(hash16, id, desired, objects, providers[..i], clock).ok ==>
              Fold(hash16, id, desired, objects, providers, clock)
                  == Fold(hash16, id, desired, objects, providers[..i], clock)
  {
    hide One, KeyFor;
    if i < |providers| {
      var n := |providers| - 1;
      FoldStops(hash16, id, desired, objects, providers[..n], i, clock);
      assert providers[..n][..i] == providers[..i];
    } else {
      assert providers[..i] == providers;
    }
  }
}
