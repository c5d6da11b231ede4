/** What one successful `Apply` leaves in the store, said of the publications and the objects alone: every
    selected provider is visited, every provider no longer selected is retired, nothing else is touched. */
module ApplyLaws {
  import opened Ordering
  import opened Endpoints
  import opened Lifecycle
  import opened Objects
  import opened WriterSpec
  import opened WriterLaws
  import opened AdvanceLaws
  import opened Acceptance
  import opened Apply

  /** One provider's object after `Apply`: it exists as long as it has a target, its active targets are the
      desired ones, the others are those published before that are not yet due, each with its running
      deadline or one started now with the old delay, and the new delay is that of the publication. */
  ghost predicate Settled(pub: Publication, current: Option<Object>, now: int, after: Option<Object>) {
    var desired := DesiredKeys(pub.records);
    && (pub.records != [] ==> after.Some?)
    && (current.None? && pub.records == [] ==> after.None?)
    && (after.Some? ==>
          && Active(after.value) == desired
          && Pending(after.value).Keys <= Keys(after.value)
          && (pub.records != [] ==> after.value.delay == Delay(pub.deletionDelay))
          && (pub.records == [] ==> current.Some? && after.value.delay == current.value.delay))
    && (forall k :: after.Some? && k in Pending(after.value) <==> Lingers(desired, current, now, k))
    && (forall k :: after.Some? && k in Pending(after.value) && Lingers(desired, current, now, k) ==>
          Pending(after.value)[k] == Expiry(current.value, now, k))
  }

  ghost function Expiry(o: Object, now: int, k: TargetKey): int {
    if k in Pending(o) then Pending(o)[k] else if o.delay.Delay? then now + o.delay.nanos else now
  }

  /** A target published before, no longer desired and not yet due. */
  ghost predicate Lingers(desired: set<TargetKey>, current: Option<Object>, now: int, k: TargetKey) {
    current.Some? && k in Keys(current.value) && k !in desired && Expiry(current.value, now, k) > now
  }

  ghost predicate Names(pubs: seq<Publication>, p: string) {
    exists i :: 0 <= i < |pubs| && pubs[i].providerName == p
  }

  /** The store after `Apply`, provider by provider. */
  ghost predicate Applied(hash16: string -> string, id: Identity, pubs: seq<Publication>, providers: set<string>,
                          clock: string -> int, before: Stored, after: Stored)
  {
    && (forall i :: 0 <= i < |pubs| ==>
          var p := pubs[i].providerName;
          var key := KeyFor(hash16, id, p);
          Settled(pubs[i], At(before, key), clock(p), At(after, key)))
    && (forall p :: p in providers && !Names(pubs, p) ==>
          var key := KeyFor(hash16, id, p);
          Settled(ZERO_PUBLICATION, At(before, key), clock(p), At(after, key)))
    && (forall key :: (forall p :: p in providers ==> key != KeyFor(hash16, id, p)) ==>
          At(after, key) == At(before, key))
  }

  /** The providers `Apply` may concern: those the publications name and those its objects carry. */
  ghost predicate Concerned(hash16: string -> string, id: Identity, pubs: seq<Publication>, providers: set<string>,
                            objects: Stored)
  {
    && (forall i :: 0 <= i < |pubs| ==> pubs[i].providerName in providers)
    && (forall k :: k in objects && Mine(hash16, id, k, objects[k]) ==>
      Lookup(objects[k].labels, Provider) in providers)
  }

  lemma BuiltSettles(hash16: string -> string, id: Identity, p: string, pub: Publication, current: Option<Object>,
                     now: int)
    requires Targeted(pub) && SoundOr(current)
    requires current.Some? || pub.records != []
    ensures
      match Build(hash16, id, p, pub, current, now)
      case Invalid => false
      case Nothing => Settled(pub, current, now, None)
      case Built(o) => Settled(pub, current, now, Some(o))
  {
    hide Build, Marshal, ChosenAttrs, KeysOf, PendingMap, ValidText, DesiredKeys, NormalForm, StoredAttrs, Settled;
    hide Kept, Sound, GoodPublication, Assemble;
    var b := Build(hash16, id, p, pub, current, now);
    BuildMeaning(hash16, id, p, pub, current, now);
    if b.Built? {
      DelayOfBuilt(hash16, id, p, pub, current, now);
      MeaningSettles(pub, current, now, b.obj);
    } else {
      EmptySettles(pub, current, now);
    }
  }

  lemma DelayOfBuilt(hash16: string -> string, id: Identity, p: string, pub: Publication, current: Option<Object>,
                     now: int)
    requires Build(hash16, id, p, pub, current, now).Built? && (current.Some? || pub.records != [])
    ensures
      Build(hash16, id, p, pub, current, now).obj.delay ==
      if pub.records != [] then Delay(pub.deletionDelay) else current.value.delay
  {
    BuiltIsAssembled(hash16, id, p, pub, current, now);
    hide Build, Labels, Annotations, WithoutSourceOwner, ObjectName;
  }

  lemma KeptLingers(pub: Publication, current: Option<Object>, now: int, k: TargetKey)
    requires SoundOr(current)
    ensures k in Kept(pub, current, now) <==> Lingers(DesiredKeys(pub.records), current, now, k)
    ensures k in Kept(pub, current, now) ==> Kept(pub, current, now)[k] == Expiry(current.value, now, k)
  {
    hide KeysOf, PendingMap, DesiredKeys;
  }

  lemma MeaningSettles(pub: Publication, current: Option<Object>, now: int, o: Object)
    requires SoundOr(current) && (current.Some? || pub.records != []) && IsBuilt(pub, current, now, o)
    requires o.delay == if pub.records != [] then Delay(pub.deletionDelay) else current.value.delay
    ensures Settled(pub, current, now, Some(o))
  {
    forall k
      ensures k in Kept(pub, current, now) <==> Lingers(DesiredKeys(pub.records), current, now, k)
      ensures k in Kept(pub, current, now) ==>
        k !in DesiredKeys(pub.records) && Kept(pub, current, now)[k] == Expiry(current.value, now, k)
    {
      KeptLingers(pub, current, now, k);
    }
    hide Kept, DesiredKeys, Keys, Pending, Lingers, Expiry, Marshal, ValidText, StoredAttrs, ChosenAttrs, NormalForm;
  }

  lemma EmptySettles(pub: Publication, current: Option<Object>, now: int)
    requires SoundOr(current) && pub.records == [] && Kept(pub, current, now).Keys == {}
    ensures Settled(pub, current, now, None)
  {
    forall k ensures !Lingers(DesiredKeys(pub.records), current, now, k) {
      KeptLingers(pub, current, now, k);
    }
  }

  /** `applyOne` settles its provider. */
  lemma OneSettles(hash16: string -> string, id: Identity, desired: map<string, Publication>, p: string,
                   current: Option<Object>, now: int)
    requires Targeted(PublicationOf(desired, p))
    requires current.Some? ==> Belongs(hash16, id, p, current.value)
    ensures
      Settled(PublicationOf(desired, p), current, now, After(current, One(hash16, id, desired, p, current, now)))
  {
    hide Build, Sound, Equivalent, GoodPublication, DesiredKeys, Owned, ObjectName, Settled;
    var pub := PublicationOf(desired, p);
    if current.None? && pub.records == [] {
      NothingSettles(pub, now);
    } else {
      BuiltSettles(hash16, id, p, pub, current, now);
      BuildSound(hash16, id, p, pub, current, now);
      var b := Build(hash16, id, p, pub, current, now);
      if b.Built? && current.Some? && Equivalent(current.value, b.obj) {
        BuiltIsAssembled(hash16, id, p, pub, current, now);
        EquivalentIsSame(current.value, b.obj);
      }
    }
  }

  lemma NothingSettles(pub: Publication, now: int)
    requires pub.records == []
    ensures Settled(pub, None, now, None)
  {
  }

  lemma {:induction false} DesiredHas(pubs: seq<Publication>, i: nat)
    requires GoodPublications(pubs) && i < |pubs|
    ensures pubs[i].providerName in Desired(pubs) && Desired(pubs)[pubs[i].providerName] == pubs[i]
  {
    var n := |pubs| - 1;
    if i < n { DesiredHas(pubs[..n], i); }
  }

  lemma Named(pubs: seq<Publication>, p: string)
    requires p in Desired(pubs)
    ensures Names(pubs, p)
  {
    var i := DesiredAt(pubs, p);
  }

  /** The providers of the loop, from the publications and the labels. */
  lemma VisitedAmong(hash16: string -> string, id: Identity, pubs: seq<Publication>, providers: set<string>,
                     objects: Stored)
    requires Concerned(hash16, id, pubs, providers, objects)
    ensures Providers(hash16, id, pubs, objects) <= providers
  {
    hide Desired, Mine;
    forall p | p in Desired(pubs) ensures p in providers {
      var i := DesiredAt(pubs, p);
    }
  }

  lemma Fewer(hash16: string -> string, id: Identity, fewer: set<string>, providers: set<string>, objects: Stored)
    requires fewer <= providers
    requires WellKept(hash16, id, providers, objects) && Distinguished(hash16, id, providers)
    ensures WellKept(hash16, id, fewer, objects) && Distinguished(hash16, id, fewer)
  {
    hide Belongs, KeyFor, KeptAt, ListedKeys;
  }

  /** A provider that is not visited has neither an object nor a publication. */
  lemma NotVisited(hash16: string -> string, id: Identity, pubs: seq<Publication>, providers: set<string>,
                   objects: Stored, p: string)
    requires WellKept(hash16, id, providers, objects) && p in providers && p !in Providers(hash16, id, pubs, objects)
    ensures KeyFor(hash16, id, p) !in objects
  {
    var key := KeyFor(hash16, id, p);
    hide Sound, ObjectName, SourceKey;
    assert key in objects ==> Belongs(hash16, id, p, objects[key]);
    assert key in objects ==> key in ListedKeys(hash16, id, objects);
  }

  lemma SettledAt(hash16: string -> string, id: Identity, pubs: seq<Publication>, providers: set<string>,
                  clock: string -> int, before: Stored, after: Stored, p: string)
    requires WellKept(hash16, id, providers, before) && p in providers
    requires Targeted(PublicationOf(Desired(pubs), p))
    requires
      if p in Providers(hash16, id, pubs, before) then DoneFor(hash16, id, Desired(pubs), before, p, clock, after)
      else At(after, KeyFor(hash16, id, p)) == At(before, KeyFor(hash16, id, p))
    ensures
      var key := KeyFor(hash16, id, p);
      Settled(PublicationOf(Desired(pubs), p), At(before, key), clock(p), At(after, key))
  {
    hide Settled, Targeted, KeyFor, Belongs, One, ListedKeys, Desired;
    if p in Providers(hash16, id, pubs, before) {
      OneSettles(hash16, id, Desired(pubs), p, At(before, KeyFor(hash16, id, p)), clock(p));
    } else {
      NotVisited(hash16, id, pubs, providers, before, p);
      NothingSettles(PublicationOf(Desired(pubs), p), clock(p));
    }
  }

  lemma ApartUnvisited(hash16: string -> string, id: Identity, visited: set<string>, providers: set<string>, p: string)
    requires Distinguished(hash16, id, providers) && visited <= providers && p in providers && p !in visited
    ensures !Own(hash16, id, SortedStrings(visited), KeyFor(hash16, id, p))
  {
    SortedStringsLists(visited);
    hide SortedStrings, KeyFor;
  }

  lemma OutsideUntouched(hash16: string -> string, id: Identity, visited: set<string>, providers: set<string>,
                         key: Key)
    requires visited <= providers && forall p :: p in providers ==> key != KeyFor(hash16, id, p)
    ensures !Own(hash16, id, SortedStrings(visited), key)
  {
    SortedStringsLists(visited);
    hide SortedStrings, KeyFor;
  }

  lemma AllTargetedBy(pubs: seq<Publication>, p: string)
    requires forall i :: 0 <= i < |pubs| ==> Targeted(pubs[i])
    ensures Targeted(PublicationOf(Desired(pubs), p))
    ensures !Names(pubs, p) ==> PublicationOf(Desired(pubs), p) == ZERO_PUBLICATION
  {
    assert Targeted(ZERO_PUBLICATION);
    hide Targeted, Desired;
    if p in Desired(pubs) {
      var i := DesiredAt(pubs, p);
    }
  }

  /** APPLY DOES WHAT IT IS FOR. From a well kept store it succeeds; every publication is settled under the
      name of its provider; every other provider of the source is retired; every other object is as it was. */
  lemma ApplyDoes(hash16: string -> string, id: Identity, pubs: seq<Publication>, providers: set<string>,
                  clock: string -> int, objects: Stored)
    requires GoodPublications(pubs) && forall i :: 0 <= i < |pubs| ==> Targeted(pubs[i])
    requires WellKept(hash16, id, providers, objects) && Distinguished(hash16, id, providers)
    requires Concerned(hash16, id, pubs, providers, objects)
    ensures
      var r := ApplyAll(hash16, id, pubs, objects, clock);
      r.ok && Applied(hash16, id, pubs, providers, clock, objects, r.objects)
  {
    var visited, desired := Providers(hash16, id, pubs, objects), Desired(pubs);
    var after := ApplyAll(hash16, id, pubs, objects, clock).objects;
    hide ApplyAll, Fold, Desired, WellKept, Distinguished, SortedStrings, DoneFor, Own, At, Providers;
    hide Targeted, PublicationOf, Settled, KeyFor, ListedKeys, Mine, GoodPublications, Names;
    VisitedAmong(hash16, id, pubs, providers, objects);
    Fewer(hash16, id, visited, providers, objects);
    ApplyIsFold(hash16, id, pubs, objects, visited, clock);
    forall p ensures Targeted(PublicationOf(desired, p)) {
      AllTargetedBy(pubs, p);
    }
    FirstFold(hash16, id, desired, objects, visited, clock);
    forall p | p in providers
      ensures
        var key := KeyFor(hash16, id, p);
        Settled(PublicationOf(desired, p), At(objects, key), clock(p), At(after, key))
    {
      if p !in visited { ApartUnvisited(hash16, id, visited, providers, p); }
      SettledAt(hash16, id, pubs, providers, clock, objects, after, p);
    }
    forall i | 0 <= i < |pubs| ensures PublicationOf(desired, pubs[i].providerName) == pubs[i] {
      DesiredHas(pubs, i);
      PublicationIs(desired, pubs[i]);
    }
    forall p | !Names(pubs, p) ensures PublicationOf(desired, p) == ZERO_PUBLICATION {
      AllTargetedBy(pubs, p);
    }
    forall key | forall p :: p in providers ==> key != KeyFor(hash16, id, p)
      ensures At(after, key) == At(objects, key)
    {
      OutsideUntouched(hash16, id, visited, providers, key);
    }
  }

  lemma PublicationIs(desired: map<string, Publication>, pub: Publication)
    requires pub.providerName in desired && desired[pub.providerName] == pub
    ensures PublicationOf(desired, pub.providerName) == pub
  {
  }

  /** An object of nobody or of another source, whatever its name. */
  predicate Foreign(hash16: string -> string, id: Identity, o: Object) {
    Lookup(o.labels, ManagedBy) != MANAGED_BY_VALUE || Lookup(o.labels, SourceKeyLabel) != SourceKey(hash16, id)
  }

  lemma ForeignFails(hash16: string -> string, id: Identity, desired: map<string, Publication>, p: string, o: Object,
                     now: int)
    requires Foreign(hash16, id, o)
    ensures One(hash16, id, desired, p, Some(o), now) == Fail
  {
    hide Build, SourceKey;
  }

  lemma {:induction false} FoldSpares(hash16: string -> string, id: Identity, desired: map<string, Publication>,
                                      objects: Stored, providers: seq<string>, clock: string -> int, key: Key)
    requires key in objects && Foreign(hash16, id, objects[key])
    ensures
      var r := Fold(hash16, id, desired, objects, providers, clock);
      && At(r.objects, key) == At(objects, key)
      && (Own(hash16, id, providers, key) ==> !r.ok)
  {
    hide One, KeyFor, Foreign;
    if providers != [] {
      var n := |providers| - 1;
      FoldSpares(hash16, id, desired, objects, providers[..n], clock, key);
      var before := Fold(hash16, id, desired, objects, providers[..n], clock);
      var last := KeyFor(hash16, id, providers[n]);
      var a := One(hash16, id, desired, providers[n], At(before.objects, last), clock(providers[n]));
      if last == key {
        ForeignFails(hash16, id, desired, providers[n], objects[key], clock(providers[n]));
      }
      WriteAt(before.objects, last, a, key);
      hide Write, At;
      if Own(hash16, id, providers, key) && last != key {
        var p :| p in providers && key == KeyFor(hash16, id, p);
        assert p in providers[..n];
      }
    }
  }

  /** NOTHING FOREIGN IS WRITTEN. In any store, whatever the listing holds: `Apply` leaves an object that is
      not of this source as it is, and fails when a publication needs its name. */
  lemma ForeignSpared(hash16: string -> string, id: Identity, pubs: seq<Publication>, objects: Stored,
                      clock: string -> int, key: Key)
    requires key in objects && Foreign(hash16, id, objects[key])
    ensures
      var r := ApplyAll(hash16, id, pubs, objects, clock);
      && At(r.objects, key) == Some(objects[key])
      && ((exists i :: 0 <= i < |pubs| && KeyFor(hash16, id, pubs[i].providerName) == key) ==> !r.ok)
  {
    var list := SortedStrings(Providers(hash16, id, pubs, objects));
    SortedStringsLists(Providers(hash16, id, pubs, objects));
    hide GoodListing, OneEach, Desired, SortedStrings, KeyFor, Foreign, Fold, GoodPublications;
    FoldSpares(hash16, id, Desired(pubs), objects, list, clock, key);
    if GoodPublications(pubs) && exists i :: 0 <= i < |pubs| && KeyFor(hash16, id, pubs[i].providerName) == key {
      var i :| 0 <= i < |pubs| && KeyFor(hash16, id, pubs[i].providerName) == key;
      DesiredHas(pubs, i);
      assert pubs[i].providerName in list;
    }
  }

  /** A listed object that is damaged: no readable lifecycle, a delay that is missing or negative, a pending
      target it does not publish, no provider, or the name of another. */
  ghost predicate Damaged(hash16: string -> string, id: Identity, o: Object) {
    var p := Lookup(o.labels, Provider);
    || o.lifecycle.Missing? || o.lifecycle.NotJson? || !o.delay.Delay? || o.delay.nanos < 0
    || (exists e :: e in o.lifecycle.pending && (e.deadline.NotCanonical? || e.key !in KeysOf(o.endpoints)))
    || p == "" || o.name != ObjectName(hash16, id, p)
  }

  /** NOTHING IS WRITTEN FROM A DAMAGED LISTING: one damaged object of the source, or two with one provider,
      and `Apply` fails without touching any provider. */
  lemma DamagedRefused(hash16: string -> string, id: Identity, pubs: seq<Publication>, objects: Stored,
                       clock: string -> int, j: Key, k: Key)
    requires j in objects && Mine(hash16, id, j, objects[j]) && k in objects && Mine(hash16, id, k, objects[k])
    requires
      || Damaged(hash16, id, objects[k])
      || (j != k && Lookup(objects[j].labels, Provider) == Lookup(objects[k].labels, Provider))
    ensures ApplyAll(hash16, id, pubs, objects, clock) == Outcome(false, objects)
  {
    hide Mine, Fold, SortedStrings, ObjectName, KeysOf;
    assert j in ListedKeys(hash16, id, objects) && k in ListedKeys(hash16, id, objects);
    if Damaged(hash16, id, objects[k]) {
      DamagedNotAccepted(hash16, id, objects[k]);
    }
  }

  lemma DamagedNotAccepted(hash16: string -> string, id: Identity, o: Object)
    requires Damaged(hash16, id, o)
    ensures !ListingAccepts(hash16, id, o)
  {
    hide ObjectName, KeysOf, PendingMap;
    if ListingAccepts(hash16, id, o) {
      var e :| e in o.lifecycle.pending && (e.deadline.NotCanonical? || e.key !in KeysOf(o.endpoints));
      PendingMapHas(o.lifecycle.pending, e.key);
    }
  }
}
