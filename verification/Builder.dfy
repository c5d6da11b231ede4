/** `build`, step by step as the writer runs it. */
module Builder {
  import opened Ordering
  import opened Endpoints
  import opened Lifecycle
  import opened Objects
  import opened WriterSpec
  import opened WriterLaws
  import opened Records
  import opened Combine

  /** The pending map of `build`: entries under their own key, with the deadlines of `m`. */
  ghost predicate Holds(pending: map<TargetKey, PendingTarget>, m: map<TargetKey, int>) {
    pending.Keys == m.Keys && forall k :: k in pending ==> pending[k] == PendingTarget(k, Instant(m[k]))
  }

  /** Loads the stored list, refusing an entry whose target is not in the spec. */
  method LoadPending(state: seq<PendingTarget>, ghost stored: map<TargetKey, int>, current: set<TargetKey>)
    returns (ok: bool, pending: map<TargetKey, PendingTarget>)
    requires state == Listing(stored)
    ensures ok <==> stored.Keys <= current
    ensures ok ==> Holds(pending, stored)
  {
    ListingMembers(stored);
    hide Listing, KeysIn, StrictlySorted, KeyLess;
    pending := map[];
    for i := 0 to |state|
      invariant forall j :: 0 <= j < i ==> state[j].key in pending
      invariant forall k :: k in pending ==> k in stored && pending[k] == Entry(stored, k)
      invariant pending.Keys <= current
    {
      assert state[i] in state;
      if state[i].key !in current {
        ok := false;
        return;
      }
      pending := pending[state[i].key := state[i]];
    }
    ok := true;
    forall k | k in stored ensures k in pending {
      assert Entry(stored, k) in state;
    }
  }

  /** What the walk over the current targets leaves pending, `rest` not yet walked. */
  ghost function Walked(current: set<TargetKey>, rest: set<TargetKey>, desired: set<TargetKey>,
                        stored: map<TargetKey, int>, delay: int, now: int): map<TargetKey, int>
  {
    map k | k in current && (if k in rest then k in stored else k !in desired) :: DueAt(stored, delay, now, k)
  }

  /** Starts and cancels retirements, walking the current targets in any order. */
  method WalkTargets(start: map<TargetKey, PendingTarget>, ghost stored: map<TargetKey, int>, current: set<TargetKey>,
                     desired: set<TargetKey>, delay: int, now: int) returns (pending: map<TargetKey, PendingTarget>)
    requires Holds(start, stored) && stored.Keys <= current
    ensures Holds(pending, Walked(current, {}, desired, stored, delay, now))
  {
    pending := start;
    var rest := current;
    while rest != {}
      invariant rest <= current
      invariant Holds(pending, Walked(current, rest, desired, stored, delay, now))
      decreases |rest|
    {
      var k :| k in rest;
      ghost var before := Walked(current, rest, desired, stored, delay, now);
      if k in desired {
        pending := pending - {k};
      } else if k !in pending {
        pending := pending[k := PendingTarget(k, Instant(now + delay))];
      }
      rest := rest - {k};
    }
  }

  /** Drops every desired target from the pending map. */
  method CancelDesired(start: map<TargetKey, PendingTarget>, desired: set<TargetKey>)
    returns (pending: map<TargetKey, PendingTarget>)
    ensures pending == start - desired
  {
    pending := start;
    var rest := desired;
    while rest != {}
      invariant rest <= desired && pending == start - (desired - rest)
      decreases |rest|
    {
      var k :| k in rest;
      pending := pending - {k};
      rest := rest - {k};
    }
  }

  /** Drops what is due, walking the pending map in any order. */
  method ExpireDue(start: map<TargetKey, PendingTarget>, now: int) returns (pending: map<TargetKey, PendingTarget>)
    ensures pending == map k | k in start && Deadline(start[k]) > now :: start[k]
  {
    pending := start;
    var rest := start.Keys;
    while rest != {}
      invariant rest <= start.Keys
      invariant pending == map k | k in start && (k in rest || Deadline(start[k]) > now) :: start[k]
      decreases |rest|
    {
      var k :| k in rest;
      if !(Deadline(pending[k]) > now) {
        pending := pending - {k};
      }
      rest := rest - {k};
    }
  }

  lemma ExpiredIsRetained(current: set<TargetKey>, desired: set<TargetKey>, stored: map<TargetKey, int>, delay: int,
                          now: int,
                          walked: map<TargetKey, PendingTarget>, pending: map<TargetKey, PendingTarget>)
    requires Holds(walked, Walked(current, {}, desired, stored, delay, now))
    requires pending == map k | k in walked - desired && Deadline((walked - desired)[k]) > now :: (walked - desired)[k]
    ensures Holds(pending, Retained(current, stored, delay, desired, now))
  {
  }

  /** The pending values in the arbitrary order of a Go map, then the sorted document. */
  method WritePending(pending: map<TargetKey, PendingTarget>, ghost m: map<TargetKey, int>)
    returns (text: LifecycleText)
    requires Holds(pending, m)
    ensures text == Marshal(m)
  {
    var list: seq<PendingTarget> := [];
    var rest := pending.Keys;
    while rest != {}
      invariant rest <= pending.Keys && DistinctKeys(list)
      invariant forall p :: p in list ==> p.key in m.Keys - rest && p == PendingTarget(p.key, Instant(m[p.key]))
      invariant forall k :: k in m.Keys - rest ==> PendingTarget(k, Instant(m[k])) in list
      decreases |rest|
    {
      var k :| k in rest;
      list := list + [pending[k]];
      rest := rest - {k};
    }
    text := MarshalLifecycle(list);
    forall k | k in m ensures HasPending(list, k) {
      assert PendingTarget(k, Instant(m[k])) in list;
    }
    PendingMapIs(list, m);
  }

  /** `withoutSourceOwner`. */
  method StripOwner(owners: seq<OwnerRef>, id: Identity) returns (r: seq<OwnerRef>)
    ensures r == WithoutSourceOwner(owners, id)
    ensures forall o :: o in r <==> o in owners && o != OwnerRef(id.apiVersion, id.kind, id.name)
  {
    r := [];
    for i := 0 to |owners|
      invariant r == WithoutSourceOwner(owners[..i], id)
      invariant forall o :: o in r <==> o in owners[..i] && o != OwnerRef(id.apiVersion, id.kind, id.name)
    {
      assert owners[..i + 1][..i] == owners[..i];
      if owners[i] != OwnerRef(id.apiVersion, id.kind, id.name) {
        r := r + [owners[i]];
      }
    }
    assert owners[..|owners|] == owners;
  }

  lemma CombinedIsChosen(pub: Publication, current: Option<Object>, now: int)
    requires GoodPending(current)
    ensures
      var keys := DesiredKeys(pub.records) + Kept(pub, current, now).Keys;
      NormAttrs(CombinedAttrs(DesiredAttrs(pub.records), StoredOr(current), keys))
          == ChosenAttrs(pub.records, current, keys)
  {
    var keys := DesiredKeys(pub.records) + Kept(pub, current, now).Keys;
    var chosen := ChosenAttrs(pub.records, current, keys);
    ChosenCovers(pub, current, now);
    hide Kept, DesiredKeys, DesiredAttrs, StoredOr, Readable;
    var combined := CombinedAttrs(DesiredAttrs(pub.records), StoredOr(current), keys);
    forall id | id in chosen ensures NormAttr(combined[id]) == chosen[id] {
      NormAttrFixed(chosen[id]);
    }
  }

  /** The part of `build` before the merge: the checks, and the pending map. */
  method ReadState(pub: Publication, current: Option<Object>, desired: set<TargetKey>, currentTargets: set<TargetKey>,
                   now: int)
    returns (ok: bool, pending: map<TargetKey, PendingTarget>)
    requires currentTargets == if current.Some? then Keys(current.value) else {}
    requires desired == DesiredKeys(pub.records)
    ensures ok <==> GoodPending(current)
    ensures ok ==> Holds(pending, Kept(pub, current, now))
  {
    var state: seq<PendingTarget> := [];
    var storedDelay := pub.deletionDelay;
    ghost var stored: map<TargetKey, int> := map[];
    if current.Some? {
      var parsed := ParseLifecycle(current.value.lifecycle);
      if parsed.None? || !GoodDelay(current.value.delay) {
        ok, pending := false, map[];
        return;
      }
      state, storedDelay, stored := parsed.value, current.value.delay.nanos, Pending(current.value);
    } else {
      ListingMembers(map[]);
      assert Listing(map[]) == [];
    }
    hide ValidText, Listing, DesiredKeys, Retained, KeysOf, PendingMap;
    ok, pending := LoadPending(state, stored, currentTargets);
    if !ok {
      return;
    }
    pending := WalkTargets(pending, stored, currentTargets, desired, storedDelay, now);
    ghost var walked := pending;
    pending := CancelDesired(pending, desired);
    pending := ExpireDue(pending, now);
    ExpiredIsRetained(currentTargets, desired, stored, storedDelay, now, walked, pending);
    if current.None? {
      RetainedOfNothing(stored, storedDelay, desired, now);
    }
  }

  lemma RetainedOfNothing(stored: map<TargetKey, int>, delay: int, desired: set<TargetKey>, now: int)
    ensures Retained({}, stored, delay, desired, now) == map[]
  {
  }

  /** `build`. An object with repeated record ids, which the writer never leaves, is rebuilt with the
      attributes of whichever of them the sort puts last; otherwise the result is one value. */
  method BuildEndpoint(hash16: string -> string, id: Identity, provider: string, pub: Publication,
                       current: Option<Object>, now: int) returns (r: BuildResult)
    ensures r.Invalid? <==> !GoodPending(current)
    ensures (current.Some? ==> DistinctIds(current.value.endpoints)) ==>
              r == Build(hash16, id, provider, pub, current, now)
  {
    var desiredRecords := NormalizeRecords(pub.records);
    LayoutMembers(DesiredAttrs(pub.records), DesiredKeys(pub.records));
    SortedIdsDistinct(desiredRecords);
    DesiredViews(pub.records);
    var desiredTargets := EndpointTargets(desiredRecords);
    var currentRecords: seq<Endpoint> := [];
    if current.Some? {
      currentRecords := NormalizeEndpoints(current.value.endpoints);
    }
    ghost var oneValue := current.Some? ==> DistinctIds(current.value.endpoints);
    CurrentViews(current, currentRecords);
    hide Kept, DesiredKeys, DesiredAttrs, KeysOf, AttrsOf, StoredOr, StoredAttrs, Readable, IsNormalising;
    hide Marshal, NormAttrs, Layout;
    var currentTargets := EndpointTargets(currentRecords);
    var ok, pending := ReadState(pub, current, desiredTargets, currentTargets, now);
    if !ok {
      return Invalid;
    }
    LastKeysDistinct(desiredRecords);
    var combined := CombineRecords(desiredRecords, currentRecords, pending);
    ghost var keys := DesiredKeys(pub.records) + Kept(pub, current, now).Keys;
    CombinedIsChosen(pub, current, now);
    LayoutEmpty(pub, current, now, combined, AttrsOf(currentRecords));
    if |combined| == 0 {
      return Nothing;
    }
    var text := WritePending(pending, Kept(pub, current, now));
    var owners := StripOwner(if current.Some? then current.value.owners else [], id);
    r := Built(Assemble(hash16, id, provider, pub, current, combined, text).(owners := owners));
  }

  lemma DesiredViews(records: seq<Record>)
    ensures
      var eps := Layout(DesiredAttrs(records), DesiredKeys(records));
      KeysOf(eps) == DesiredKeys(records) && AttrsOf(eps) == DesiredAttrs(records)
  {
    forall k | k in DesiredKeys(records) ensures k.id in DesiredAttrs(records) {
      DesiredKeysHas(records, k);
      DesiredAttrsHas(records, k.id);
    }
    LayoutKeys(DesiredAttrs(records), DesiredKeys(records));
    LayoutAttrs(DesiredAttrs(records), DesiredKeys(records));
  }

  lemma CurrentViews(current: Option<Object>, currentRecords: seq<Endpoint>)
    requires current.None? ==> currentRecords == []
    requires current.Some? ==> KeysOf(currentRecords) == Keys(current.value)
    requires current.Some? && DistinctIds(current.value.endpoints) ==>
               currentRecords == Layout(NormAttrs(AttrsOf(current.value.endpoints)), Keys(current.value))
    ensures KeysOf(currentRecords) == if current.Some? then Keys(current.value) else {}
    ensures (current.Some? ==> DistinctIds(current.value.endpoints)) ==> AttrsOf(currentRecords) == StoredOr(current)
  {
    if current.Some? && DistinctIds(current.value.endpoints) {
      LayoutAttrs(NormAttrs(AttrsOf(current.value.endpoints)), Keys(current.value));
    }
  }

  lemma LayoutEmpty(pub: Publication, current: Option<Object>, now: int, combined: seq<Endpoint>,
                    stored: map<RecordId, Attr>)
    requires GoodPending(current)
    requires
      var keys := DesiredKeys(pub.records) + Kept(pub, current, now).Keys;
      combined == Layout(NormAttrs(CombinedAttrs(DesiredAttrs(pub.records), stored, keys)), keys)
    ensures combined == [] <==> DesiredKeys(pub.records) + Kept(pub, current, now).Keys == {}
  {
    var keys := DesiredKeys(pub.records) + Kept(pub, current, now).Keys;
    var attrs := NormAttrs(CombinedAttrs(DesiredAttrs(pub.records), stored, keys));
    assert attrs.Keys == Ids(keys);
    hide Kept, DesiredKeys, DesiredAttrs, Layout, NormAttr, NormAttrs, CombinedAttrs;
    LayoutMembers(attrs, keys);
    IdsEmpty(keys);
  }

  lemma IdsEmpty(keys: set<TargetKey>)
    ensures keys == {} <==> Ids(keys) == {}
  {
    assert keys != {} ==> exists k :: k in keys && k.id in Ids(keys);
  }
}
