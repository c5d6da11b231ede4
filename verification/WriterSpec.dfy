/** What one `build` and one `Advance` do to one object, as functions of the object read and the
    clock. The methods of modules Builder and Advancer compute exactly these.
 */
module WriterSpec {
  import opened Ordering
  import opened Endpoints
  import opened Lifecycle
  import opened Objects
  import opened Text

  /** `normalizeRecords` lower-cases the name and drops one trailing dot. */
  function NormId(r: Record): RecordId {
    RecordId(ToLower(TrimDot(r.dnsName)), r.recordType)
  }

  /** Two names are one record's exactly when they differ in letter case and one trailing dot at most. */
  lemma NormIdSpelling(r: Record, v: string)
    requires v == "" || v[|v| - 1] != '.'
    ensures NormId(r).dnsName == v <==> ToLower(r.dnsName) == v || ToLower(r.dnsName) == v + "."
    ensures NormId(r).recordType == r.recordType
  {
    var lower := ToLower(r.dnsName);
    if lower == v + "." {
      assert lower[|lower| - 1] == LowerChar(r.dnsName[|lower| - 1]);
    }
    if lower == v && v != "" {
      assert v[|v| - 1] == LowerChar(r.dnsName[|v| - 1]);
    }
  }

  function RecordKeys(r: Record): set<TargetKey> { set t | t in r.targets :: TargetKey(NormId(r), t) }

  function DesiredKeys(records: seq<Record>): set<TargetKey> {
    if records == [] then {} else DesiredKeys(records[..|records| - 1]) + RecordKeys(records[|records| - 1])
  }

  ghost predicate Wants(records: seq<Record>, k: TargetKey) {
    exists d :: d in records && NormId(d) == k.id && k.target in d.targets
  }

  lemma {:induction false} DesiredKeysHas(records: seq<Record>, k: TargetKey)
    ensures k in DesiredKeys(records) <==> Wants(records, k)
  {
    if records != [] {
      var n := |records| - 1;
      DesiredKeysHas(records[..n], k);
      assert records == records[..n] + [records[n]];
      if Wants(records[..n], k) {
        var d :| d in records[..n] && NormId(d) == k.id && k.target in d.targets;
        assert d in records;
      }
      if k in RecordKeys(records[n]) { assert records[n] in records; }
    }
  }

  ghost function NormAttr(a: Attr): Attr { Attr(a.ttl, SortSeq(PropertyLess, a.properties)) }

  ghost function RecordAttr(r: Record): Attr { NormAttr(Attr(r.ttl, r.properties)) }

  /** Attributes of the desired records: of records with one normalised id, the first one wins. */
  ghost function DesiredAttrs(records: seq<Record>): map<RecordId, Attr> {
    if records == [] then map[]
    else
      var last := records[|records| - 1];
      var rest := DesiredAttrs(records[..|records| - 1]);
      if NormId(last) in rest then rest else rest[NormId(last) := RecordAttr(last)]
  }

  ghost predicate HasRecord(records: seq<Record>, id: RecordId) {
    exists d :: d in records && NormId(d) == id
  }

  lemma {:induction false} DesiredAttrsHas(records: seq<Record>, id: RecordId)
    ensures id in DesiredAttrs(records) <==> HasRecord(records, id)
  {
    if records != [] {
      var n := |records| - 1;
      DesiredAttrsHas(records[..n], id);
      assert records == records[..n] + [records[n]];
      if HasRecord(records[..n], id) {
        var d :| d in records[..n] && NormId(d) == id;
        assert d in records;
      }
      if NormId(records[n]) == id { assert records[n] in records; }
    }
  }

  /** The attributes of the stored records after normalisation. */
  ghost function StoredAttrs(o: Object): map<RecordId, Attr> {
    var attrs := AttrsOf(o.endpoints);
    map id | id in attrs :: NormAttr(attrs[id])
  }

  predicate GoodDelay(d: DelayText) { d.Delay? && d.nanos >= 0 }

  /** The checks `build` and `Advance` make of a stored object. */
  ghost predicate Readable(o: Object) {
    && ValidText(o.lifecycle)
    && GoodDelay(o.delay)
    && PendingMap(o.lifecycle.pending).Keys <= KeysOf(o.endpoints)
  }

  ghost function Pending(o: Object): map<TargetKey, int> {
    if o.lifecycle.Document? then PendingMap(o.lifecycle.pending) else map[]
  }

  ghost function Keys(o: Object): set<TargetKey> { KeysOf(o.endpoints) }

  /** The targets that are not being retired. */
  ghost function Active(o: Object): set<TargetKey> { Keys(o) - Pending(o).Keys }

  /** When an undesired target goes: a running deadline stays, a new one is `now` plus the delay. */
  function DueAt(pending: map<TargetKey, int>, delay: int, now: int, k: TargetKey): int {
    if k in pending then pending[k] else now + delay
  }

  /** The targets that stay published although undesired, with their deadlines. */
  function Retained(keys: set<TargetKey>, pending: map<TargetKey, int>, delay: int, desired: set<TargetKey>, now: int)
    : map<TargetKey, int>
  {
    map k | k in keys && k !in desired && DueAt(pending, delay, now, k) > now :: DueAt(pending, delay, now, k)
  }

  ghost function StoredOr(current: Option<Object>): map<RecordId, Attr> {
    if current.Some? then StoredAttrs(current.value) else map[]
  }

  /** Desired attributes win; a record with only retiring targets keeps its stored ones. */
  ghost function ChosenAttrs(records: seq<Record>, current: Option<Object>, keys: set<TargetKey>): map<RecordId, Attr> {
    var all := StoredOr(current) + DesiredAttrs(records);
    map id | id in all && id in Ids(keys) :: all[id]
  }

  function WithoutSourceOwner(owners: seq<OwnerRef>, id: Identity): seq<OwnerRef> {
    if owners == [] then []
    else
      var rest := WithoutSourceOwner(owners[..|owners| - 1], id);
      var o := owners[|owners| - 1];
      if o == OwnerRef(id.apiVersion, id.kind, id.name) then rest else rest + [o]
  }

  function Labels(hash16: string -> string, id: Identity, provider: string,
                  before: map<LabelKey, string>): map<LabelKey, string> {
    before[ManagedBy := MANAGED_BY_VALUE][Provider := provider][SourceKeyLabel := SourceKey(hash16, id)]
  }

  function Annotations(id: Identity, pub: Publication, before: map<AnnotationKey, string>): map<AnnotationKey, string> {
    var copied :=
      if pub.records != [] then (map k | k in before && !k.ExternalDNS? :: before[k]) + pub.metadata else before;
    var named := copied[SourceKind := id.kind][SourceNamespace := id.namespace][SourceName := id.name];
    if id.uid != "" then named[SourceUID := id.uid] else named
  }

  /** The object `build` returns around a record list and a pending list. */
  function Assemble(hash16: string -> string, id: Identity, provider: string, pub: Publication,
                    current: Option<Object>, endpoints: seq<Endpoint>, lifecycle: LifecycleText): Object
  {
    var base := match current
      case Some(o) => o
      case None => Object(id.namespace, ObjectName(hash16, id, provider), map[], map[], NoDelay, Missing, [], []);
    Object(
      base.namespace, base.name,
      Labels(hash16, id, provider, base.labels),
      Annotations(id, pub, base.annotations),
      if pub.records != [] then Delay(pub.deletionDelay) else base.delay,
      lifecycle,
      WithoutSourceOwner(base.owners, id),
      endpoints)
  }

  datatype BuildResult = Invalid | Nothing | Built(obj: Object)

  ghost function Kept(pub: Publication, current: Option<Object>, now: int): (r: map<TargetKey, int>)
    requires current.Some? ==> Readable(current.value)
  {
    if current.Some? then
      Retained(Keys(current.value), Pending(current.value), current.value.delay.nanos, DesiredKeys(pub.records), now)
    else map[]
  }

  ghost function Build(hash16: string -> string, id: Identity, provider: string, pub: Publication,
                       current: Option<Object>, now: int): BuildResult
  {
    if current.Some? && !Readable(current.value) then Invalid
    else
      var kept := Kept(pub, current, now);
      var keys := DesiredKeys(pub.records) + kept.Keys;
      if keys == {} then Nothing
      else
        Built(Assemble(hash16, id, provider, pub, current,
                       Layout(ChosenAttrs(pub.records, current, keys), keys), Marshal(kept)))
  }

  datatype Action = NoWrite | Create(obj: Object) | Update(obj: Object) | Delete | Fail | Panic

  /** The ownership check before an existing object is rebuilt. */
  predicate Owned(hash16: string -> string, id: Identity, provider: string, o: Object) {
    && Lookup(o.labels, ManagedBy) == MANAGED_BY_VALUE
    && Lookup(o.labels, SourceKeyLabel) == SourceKey(hash16, id)
    && Lookup(o.labels, Provider) == provider
  }

  /** `equivalent`: equal up to the normal form of the records. */
  ghost predicate Equivalent(a: Object, b: Object) {
    && NormalisedView(a) == NormalisedView(b)
    && a.labels == b.labels && a.annotations == b.annotations
    && a.delay == b.delay && a.lifecycle == b.lifecycle
    && a.owners == b.owners
  }

  ghost function NormalisedView(o: Object): seq<Endpoint> {
    Layout(StoredAttrs(o), Keys(o))
  }

  /** One attempt of `applyOne`. A create of a publication whose records carry no target would hand
      a nil object to the client. */
  ghost function ApplyOne(hash16: string -> string, id: Identity, provider: string, pub: Publication, selected: bool,
                          current: Option<Object>, now: int): Action
  {
    match current
    case None =>
      if !selected || pub.records == [] then NoWrite
      else (match Build(hash16, id, provider, pub, None, now)
            case Built(o) => Create(o)
            case _ => Panic)
    case Some(o) =>
      if !Owned(hash16, id, provider, o) then Fail
      else match Build(hash16, id, provider, pub, current, now)
        case Invalid => Fail
        case Nothing => Delete
        case Built(b) => if Equivalent(o, b) then NoWrite else Update(b)
  }

  ghost function Expired(o: Object, now: int): set<TargetKey> {
    set k | k in Pending(o) && Pending(o)[k] <= now
  }

  ghost function Restrict(attrs: map<RecordId, Attr>, keys: set<TargetKey>): map<RecordId, Attr> {
    map id | id in attrs && id in Ids(keys) :: attrs[id]
  }

  /** One attempt of `Advance`. */
  ghost function Advance(current: Option<Object>, now: int): Action {
    match current
    case None => NoWrite
    case Some(o) =>
      if Lookup(o.labels, ManagedBy) != MANAGED_BY_VALUE then NoWrite
      else if !Readable(o) then Fail
      else
        var expired := Expired(o, now);
        if expired == {} then NoWrite
        else
          var keys := Keys(o) - expired;
          if keys == {} then Delete
          else Update(o.(endpoints := Layout(Restrict(StoredAttrs(o), keys), keys),
                         lifecycle := Marshal(map k | k in Pending(o) && k !in expired :: Pending(o)[k])))
  }
}
