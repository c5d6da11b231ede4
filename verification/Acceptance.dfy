/** Self-acceptance: in every run each object passes the checks of both controllers and of the
    writer's listing, and a committed publication is quiet when repeated.
 */
module Acceptance {
  import opened Endpoints
  import opened Lifecycle
  import opened Objects
  import opened WriterSpec
  import opened WriterLaws
  import opened AdvanceLaws
  import opened History

  const INGRESS := "Ingress"
  const HTTP_ROUTE := "HTTPRoute"
  const TCP_ROUTE := "TCPRoute"
  const UDP_ROUTE := "UDPRoute"

  predicate IsGatewayRoute(kind: string) { kind == HTTP_ROUTE || kind == TCP_ROUTE || kind == UDP_ROUTE }

  /** The API version the lifecycle controller supplies for a stored source kind. */
  function ApiVersionFor(kind: string): Option<string> {
    if kind == INGRESS then Some("networking.k8s.io/v1")
    else if IsGatewayRoute(kind) then Some("gateway.networking.k8s.io/v1")
    else None
  }

  /** The identity the lifecycle controller rebuilds from an object's annotations. */
  function RebuiltIdentity(o: Object): Identity {
    var kind := Lookup(o.annotations, SourceKind);
    var version := ApiVersionFor(kind);
    Identity(if version.Some? then version.value else "", kind,
             Lookup(o.annotations, SourceNamespace), Lookup(o.annotations, SourceName),
             Lookup(o.annotations, SourceUID))
  }

  /** The checks of the lifecycle controller before it looks at the source. */
  ghost predicate LifecycleAccepts(hash16: string -> string, o: Object) {
    var id := RebuiltIdentity(o);
    var provider := Lookup(o.labels, Provider);
    && Managed(o)
    && ValidText(o.lifecycle)
    && ApiVersionFor(id.kind).Some?
    && id.namespace != "" && id.name != "" && id.uid != "" && provider != ""
    && o.namespace == id.namespace
    && Lookup(o.labels, SourceKeyLabel) == SourceKey(hash16, id)
    && o.name == ObjectName(hash16, id, provider)
  }

  /** The checks `Apply` makes of every listed object of a source. */
  ghost predicate ListingAccepts(hash16: string -> string, id: Identity, o: Object) {
    var provider := Lookup(o.labels, Provider);
    && ValidText(o.lifecycle)
    && Pending(o).Keys <= Keys(o)
    && GoodDelay(o.delay)
    && provider != "" && o.name == ObjectName(hash16, id, provider)
  }

  /** The identities the controllers use: a supported kind with its API version, no empty field, and
      a UID whenever records are published. All steps of one object address its name. */
  ghost predicate GoodIdentity(hash16: string -> string, namespace: string, name: string, op: Op) {
    op.Publish? ==>
      && ApiVersionFor(op.id.kind) == Some(op.id.apiVersion)
      && op.id.namespace != "" && op.id.name != "" && op.provider != ""
      && namespace == op.id.namespace && name == ObjectName(hash16, op.id, op.provider)
      && (Effective(op).records != [] ==> op.id.uid != "")
      && (forall k :: k in Effective(op).metadata ==> k.ExternalDNS?)
  }

  ghost predicate GoodIdentities(hash16: string -> string, namespace: string, name: string, h: seq<Entry>) {
    forall e :: e in h ==> GoodIdentity(hash16, namespace, name, e.op)
  }

  /** The identity part of the lifecycle controller's checks. */
  ghost predicate Identified(hash16: string -> string, namespace: string, name: string, o: Object) {
    var id := RebuiltIdentity(o);
    var provider := Lookup(o.labels, Provider);
    && Managed(o)
    && ApiVersionFor(id.kind).Some?
    && id.namespace != "" && id.name != "" && id.uid != "" && provider != ""
    && o.namespace == namespace == id.namespace
    && Lookup(o.labels, SourceKeyLabel) == SourceKey(hash16, id)
    && o.name == name == ObjectName(hash16, id, provider)
  }

  lemma BuiltIdentified(hash16: string -> string, namespace: string, name: string, op: Op, current: Option<Object>,
                        now: int)
    requires op.Publish? && GoodIdentity(hash16, namespace, name, op)
    requires current.Some? ==> Identified(hash16, namespace, name, current.value)
    requires current.None? ==> Effective(op).records != []
    requires Build(hash16, op.id, op.provider, Effective(op), current, now).Built?
    ensures Identified(hash16, namespace, name, Build(hash16, op.id, op.provider, Effective(op), current, now).obj)
  {
    BuiltIsAssembled(hash16, op.id, op.provider, Effective(op), current, now);
    var o := Build(hash16, op.id, op.provider, Effective(op), current, now).obj;
    AssembledIdentified(hash16, namespace, name, op, current, o);
  }

  lemma AssembledIdentified(hash16: string -> string, namespace: string, name: string, op: Op, current: Option<Object>,
                            o: Object)
    requires op.Publish? && GoodIdentity(hash16, namespace, name, op)
    requires current.Some? ==> Identified(hash16, namespace, name, current.value)
    requires current.None? ==> Effective(op).records != []
    requires o == Assemble(hash16, op.id, op.provider, Effective(op), current, o.endpoints, o.lifecycle)
    ensures Identified(hash16, namespace, name, o)
  {
    var id := RebuiltIdentity(o);
    assert id == op.id.(uid := id.uid);
    assert SourceKey(hash16, id) == SourceKey(hash16, op.id);
    assert ObjectName(hash16, id, op.provider) == ObjectName(hash16, op.id, op.provider);
  }

  lemma StepIdentified(hash16: string -> string, namespace: string, name: string, h: seq<Entry>, i: nat)
    requires Serial(hash16, h) && GoodOps(h) && GoodIdentities(hash16, namespace, name, h) && i < |h|
    requires Before(h, i).Some? ==> Identified(hash16, namespace, name, Before(h, i).value)
    ensures h[i].value.Some? ==> Identified(hash16, namespace, name, h[i].value.value)
  {
    assert CommittedAt(hash16, h, i) && h[i] in h;
    match h[i].op
    case Publish(_, _, _, _) => PublishIdentified(hash16, namespace, name, h[i].op, Before(h, i), h[i].clock);
    case Expire => ExpireIdentified(hash16, namespace, name, Before(h, i), h[i].clock);
    case Touch(o) => TouchIdentified(hash16, namespace, name, Before(h, i).value, o);
  }

  lemma PublishIdentified(hash16: string -> string, namespace: string, name: string, op: Op, current: Option<Object>,
                          now: int)
    requires op.Publish? && GoodIdentity(hash16, namespace, name, op)
    requires current.Some? ==> Identified(hash16, namespace, name, current.value)
    requires Writes(Step(hash16, op, current, now))
    ensures
      var after := After(current, Step(hash16, op, current, now));
      after.Some? ==> Identified(hash16, namespace, name, after.value)
  {
    hide Build, Equivalent, Identified;
    if Build(hash16, op.id, op.provider, Effective(op), current, now).Built? {
      BuiltIdentified(hash16, namespace, name, op, current, now);
    }
  }

  lemma ExpireIdentified(hash16: string -> string, namespace: string, name: string, current: Option<Object>, now: int)
    requires current.Some? ==> Identified(hash16, namespace, name, current.value)
    ensures
      var after := After(current, Advance(current, now));
      after.Some? ==> Identified(hash16, namespace, name, after.value)
  {
  }

  lemma TouchIdentified(hash16: string -> string, namespace: string, name: string, a: Object, b: Object)
    requires Identified(hash16, namespace, name, a) && SameManaged(a, b)
    ensures Identified(hash16, namespace, name, b)
  {
    assert RebuiltIdentity(a) == RebuiltIdentity(b);
  }

  lemma {:induction false} AlwaysIdentified(hash16: string -> string, namespace: string, name: string, h: seq<Entry>,
                                            n: nat)
    requires Serial(hash16, h) && GoodOps(h) && GoodIdentities(hash16, namespace, name, h) && n <= |h|
    ensures Before(h, n).Some? ==> Identified(hash16, namespace, name, Before(h, n).value)
  {
    hide Identified, Serial, GoodOps, GoodIdentities;
    if n != 0 {
      AlwaysIdentified(hash16, namespace, name, h, n - 1);
      StepIdentified(hash16, namespace, name, h, n - 1);
    }
  }

  /** SELF-ACCEPTANCE. Every object of every run passes the lifecycle controller's checks and the
      listing checks of `Apply` for its own source, and neither `Apply` nor `Advance` at any time
      reports invalid state or refuses it. */
  lemma AlwaysAccepted(hash16: string -> string, namespace: string, name: string, h: seq<Entry>, n: nat)
    requires Serial(hash16, h) && GoodOps(h) && GoodIdentities(hash16, namespace, name, h)
    requires n <= |h| && Before(h, n).Some?
    ensures
      var o := Before(h, n).value;
      var id := RebuiltIdentity(o);
      && LifecycleAccepts(hash16, o)
      && ListingAccepts(hash16, id, o)
      && Owned(hash16, id, Lookup(o.labels, Provider), o)
  {
    AlwaysIdentified(hash16, namespace, name, h, n);
    AlwaysSound(hash16, h, n);
  }

  /** The same, of the operations: on a reachable object no step of its own source fails or panics. */
  lemma NeverFails(hash16: string -> string, namespace: string, name: string, h: seq<Entry>, n: nat,
                   pub: Publication, selected: bool, now: int)
    requires Serial(hash16, h) && GoodOps(h) && GoodIdentities(hash16, namespace, name, h)
    requires n <= |h| && Before(h, n).Some? && GoodPublication(pub)
    ensures
      var o := Before(h, n).value;
      var a := ApplyOne(hash16, RebuiltIdentity(o), Lookup(o.labels, Provider), pub, selected, Some(o), now);
      && !a.Fail? && !a.Panic? && !a.Create?
      && !Advance(Some(o), now).Fail?
  {
    AlwaysAccepted(hash16, namespace, name, h, n);
    AlwaysSound(hash16, h, n);
    var o := Before(h, n).value;
    BuildSound(hash16, RebuiltIdentity(o), Lookup(o.labels, Provider), pub, Some(o), now);
    AdvanceSound(Some(o), now);
  }

  /** A create hands a nil object to the client exactly when records are given but none has a target:
      the resolver emits no such record. */
  lemma CreatePanics(hash16: string -> string, id: Identity, provider: string, pub: Publication, selected: bool,
                     now: int)
    ensures ApplyOne(hash16, id, provider, pub, selected, None, now).Panic? <==>
              selected && pub.records != [] && forall d :: d in pub.records ==> d.targets == []
  {
    if pub.records != [] {
      var a := (forall d :: d in pub.records ==> d.targets == []);
      if DesiredKeys(pub.records) == {} {
        forall d | d in pub.records ensures d.targets == [] {
          if d.targets != [] {
            DesiredKeysHas(pub.records, TargetKey(NormId(d), d.targets[0]));
          }
        }
      } else {
        var k :| k in DesiredKeys(pub.records);
        DesiredKeysHas(pub.records, k);
        var d :| d in pub.records && NormId(d) == k.id && k.target in d.targets;
        assert !a;
      }
    }
  }

  /** QUIESCENCE over runs: right after any committed publication that left an object, the same
      publication again before every deadline writes nothing. */
  lemma CommittedIsQuiet(hash16: string -> string, h: seq<Entry>, i: nat, now: int)
    requires Serial(hash16, h) && GoodOps(h) && i < |h|
    requires h[i].op.Publish? && h[i].value.Some?
    requires forall k :: k in Pending(h[i].value.value) ==> Pending(h[i].value.value)[k] > now
    ensures Step(hash16, h[i].op, h[i].value, now) == NoWrite
  {
    hide Build, Sound, GoodPublication, Equivalent;
    AlwaysSound(hash16, h, i);
    assert CommittedAt(hash16, h, i) && h[i] in h;
    var op := h[i].op;
    Quiescent(hash16, op.id, op.provider, Effective(op), Before(h, i), h[i].clock, now, op.selected);
  }

  /** ADVANCE REFINES BUILD on every object of every run: fed with the object's own active records, `build`
      gives the records, the pending list and the delay that `Advance` gives, or deletes with it. */
  lemma AdvanceIsBuildAlways(hash16: string -> string, namespace: string, name: string, h: seq<Entry>, n: nat, now: int)
    requires Serial(hash16, h) && GoodOps(h) && GoodIdentities(hash16, namespace, name, h)
    requires n <= |h| && Before(h, n).Some?
    ensures Readable(Before(h, n).value)
    ensures
      var o := Before(h, n).value;
      var provider := Lookup(o.labels, Provider);
      var built := Build(hash16, RebuiltIdentity(o), provider, OwnPublication(provider, o), Some(o), now);
      match After(Some(o), Advance(Some(o), now))
      case None => built == Nothing
      case Some(u) =>
        built.Built? && built.obj.endpoints == u.endpoints && built.obj.lifecycle == u.lifecycle
            && built.obj.delay == u.delay
  {
    hide Serial, GoodOps, GoodIdentities, Build, Advance, OwnPublication, KeysOf, PendingMap, ObjectName;
    AlwaysSound(hash16, h, n);
    AlwaysIdentified(hash16, namespace, name, h, n);
    var o := Before(h, n).value;
    AdvanceRefinesBuild(hash16, RebuiltIdentity(o), Lookup(o.labels, Provider), o, now);
  }
}
