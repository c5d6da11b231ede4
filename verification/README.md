# labdns: a verified model

labdns publishes DNS records for Kubernetes sources (Ingresses and Gateway API routes) as `DNSEndpoint`
objects, one for each source and DNS provider. A target that is no longer wanted is not dropped at once: it
is kept with a persisted deadline and retired when the deadline passes. Two controllers, the source
controllers and the lifecycle controller, write the same objects with optimistic concurrency.

This project models the parts of labdns that decide what is published and when, and proves their properties
for all inputs, all interleavings and all runs:

* **The retirement state machine.** `Ordering`, `Text`, `Endpoints`, `Lifecycle`, `Objects` are the data.
  `WriterSpec` says what one `build` and one `Advance` do; `Records`, `Combine`, `Builder`, `Advancer`,
  `Apply` are the code that does it, loop by loop, with maps walked in any order and sorts known only to
  sort. `WriterLaws` and `AdvanceLaws` give their exact meaning. `History` and `Acceptance` reason over every
  serial history of an object, `Protocol` over every concurrent run with stale reads, `Drain`, `Reconcile`
  and `Retirement` over retirement to the end; `ApplyLaws` says what one `Apply` leaves in the store, and
  `Reachable` brings the results about `Apply` and the lifecycle controller to every store a run reaches.
  `Naming` covers object names.
* **Resolution.** `Names`, `NetAddr`, `AnnotationText`, `Cluster`, `Projection`, `Resolver`, `Publisher` and
  `Sources` compute what a source publishes from the state of the cluster. `SourceLaws` gives the exact set of
  what is published and `Refusal` the exact condition for a refusal, both on the fields of the objects alone;
  `Influence` gives the settings and what does not influence publications. `ResolverLaws` and `Pipeline` show
  that the records meet everything the writer silently needs.
* **The dependency index.** `Index` and `Mapper` show that a change of any object a source reads maps that
  source, through the index or its fallback.
* **Smaller state.** `Diagnostics` and `Emitter` are the bounded rate limiter, `Inspect` the CLI's active and
  retiring split, `Table` its table layout.

Three results are about what the code does not do, or leaves to others:

* Clock readings of an object can go backwards, only at a create over a stale NotFound
  (`Protocol.ReadingsInOrder`, `Protocol.StaleCreate`). A create does not depend on the clock, so the history
  is serial all the same and the grace period holds.
* A create of records none of which has a target hands a nil object to the client
  (`Acceptance.CreatePanics`, both directions). The resolver never emits such records
  (`ResolverLaws.RecordsGood`).
* The index relies on the Gateway API's schema. A backend reference that spells out an empty namespace would
  read the ReferenceGrants of all namespaces and be indexed under none (`Index.GrantsCovered`, both
  directions, at publications). The Gateway API gives a namespace at least one character, so no admitted route
  has such a reference (`Index.AdmittedHasNoGap`).

Conventions: times and durations are integers (nanoseconds); `hash16` and the parsers of numbers and durations
are parameters, and a lemma that needs something of them says so in its `requires`. A `requires` on reachable
objects and stores is established by another lemma (`Sound` by `History.AlwaysSound`, `WellKept` and
`Distinguished` by `Reachable.StoreKept`); `Stored` is what the API server guarantees of the objects read.

## Model

| member | source | states |
|---|---|---|
| `Protocol.Serialisable` | internal/dnsendpoint/writer.go:203-241 | SERIALISABILITY: in every run of any number of tasks with stale reads, conflicts and retries, the committed versions of every object form a serial history; each is exactly `applyOne` or `Advance` applied to the version it replaced, at the clock reading its task used |
| `Protocol.ReadingsInOrder` | internal/dnsendpoint/writer.go:235-239 | committed clock readings of an object never go backwards at an update or a delete |
| `Protocol.StaleCreate` | internal/dnsendpoint/writer.go:209-222 | the exception is real: for every key and every publication with a target, whatever its delay, some run ends with a create over a stale NotFound whose reading is 0 while the commit before it read at least 5 |
| `Protocol.CreateIgnoresClock` | internal/dnsendpoint/writer.go:243-298 | a create computes the same object at any clock reading, so dating it by its commit keeps the history serial |
| `Protocol.ConcurrentGrace` | internal/dnsendpoint/writer.go:243-291 | GRACE PERIOD, every interleaving: when a target leaves the spec or its object goes, the step's clock, serial and as read, is at least that of the committed publication that first dropped it plus the deletion delay of the last one that contained it |
| `Protocol.ConcurrentAcceptance` | internal/controller/lifecycle_controller.go:73-96 | SELF-ACCEPTANCE, every interleaving: the object under a key passes every check of the lifecycle controller and of the listing, and is named as its key says |
| `Protocol.NextKeeps` | internal/dnsendpoint/writer.go:203-241 | every step of the concurrent system (clock tick, read of any past version, clock read, commit or conflict) keeps the invariant |
| `Protocol.RunKeeps` | internal/dnsendpoint/writer.go:481-553 | the invariant holds in every world of every run |
| `History.AlwaysSound` | internal/dnsendpoint/writer.go:243-338 | every object of every serial history has normal records, a valid pending list contained in them, and a usable delay |
| `History.StepTarget` | internal/dnsendpoint/writer.go:259-302 | what any committed step does to any one target: when it stays, when it is active, which deadline it has, which delay is stored |
| `History.StepCreate` | internal/dnsendpoint/writer.go:209-222 | the first entry of an object is a publication, and the object has exactly the desired targets, none pending |
| `History.Provenance` | internal/dnsendpoint/writer.go:274-291 | where every published target comes from: an active one from the last committed publication, whose delay is stored; a retiring one has as deadline the clock of the entry that dropped it plus the delay of the last publication that contained it |
| `History.Grace` | internal/dnsendpoint/writer.go:481-553 | the grace period over every serial history, naming the two publications |
| `History.ActiveIsPublished` | internal/dnsendpoint/writer.go:274-298 | the active targets of an object are exactly those the last committed publication desired |
| `Acceptance.AlwaysAccepted` | internal/controller/lifecycle_controller.go:73-96 | every object of every history passes the lifecycle controller, the listing of `Apply` and the ownership check, for the identity rebuilt from its own annotations |
| `Acceptance.NeverFails` | internal/dnsendpoint/writer.go:146-171 | on a reachable object no `applyOne` of its source and no `Advance`, at any time, reports invalid state or creates |
| `Acceptance.CreatePanics` | internal/dnsendpoint/writer.go:209-216 | a create hands a nil object to the client exactly when the provider is selected, there are records, and none has a target |
| `Acceptance.CommittedIsQuiet` | internal/dnsendpoint/writer.go:235-237 | repeating any committed publication before every deadline writes nothing |
| `Acceptance.AdvanceIsBuildAlways` | internal/dnsendpoint/writer.go:481-553 | ADVANCE REFINES BUILD on every reachable object, also after edits of unrelated metadata: same records, pending list and delay, or the same deletion |
| `WriterLaws.BuildMeaning` | internal/dnsendpoint/writer.go:259-302 | exact meaning of `build`: nothing exactly when no target is left; otherwise the targets are the desired set plus each current undesired one whose deadline is after now, pending is exactly that second part, and spec and list are their one sorted form |
| `WriterLaws.BuildTarget` | internal/dnsendpoint/writer.go:274-291 | the same of one target: present, active and due, both directions |
| `WriterLaws.BuildSound` | internal/dnsendpoint/writer.go:243-338 | `build` from a sound object or from nothing gives a sound object, never an error |
| `WriterLaws.Quiescent` | internal/dnsendpoint/writer.go:303-338 | building again from what was built, before its deadlines, gives the identical object, despite pending targets, merged duplicates, copied annotations and stripped owners |
| `WriterLaws.BuiltMetadata` | internal/dnsendpoint/writer.go:303-338 | everything around the records: the labels and identity annotations it owns, copied annotations replaced exactly when there are records, foreign labels and annotations untouched, exactly the source owner dropped, the delay replaced exactly when there are records |
| `WriterLaws.BuiltAttributes` | internal/dnsendpoint/writer.go:435-471 | every record of a built object whose id is desired has the TTL and the sorted properties of the first desired record of that id; a record kept for retiring targets alone has those it had |
| `WriterSpec.NormIdSpelling` | internal/dnsendpoint/writer.go:351-366 | two names are one record's exactly when they differ in letter case and one trailing dot at most |
| `WriterLaws.OwnersIdempotent` | internal/dnsendpoint/writer.go:340-349 | stripping the source owner twice is stripping it once |
| `AdvanceLaws.AdvanceMeaning` | internal/dnsendpoint/writer.go:494-550 | exact meaning of `Advance`: exactly the due targets and their list entries go, nothing is written when none is due, the object goes when all are |
| `AdvanceLaws.AdvanceSound` | internal/dnsendpoint/writer.go:481-553 | `Advance` keeps objects sound and does not fail on them |
| `AdvanceLaws.AdvanceComposes` | internal/dnsendpoint/writer.go:481-553 | `Advance` at t1 then at t2, t1 <= t2, equals `Advance` at t2, on any object at all |
| `AdvanceLaws.AdvanceIsBuild` | internal/dnsendpoint/writer.go:243-338 | on an object tagged as `build` tags it, `Advance` equals `build` with the object's own active records, as whole objects |
| `AdvanceLaws.AdvanceRefinesBuild` | internal/dnsendpoint/writer.go:481-553 | without the tags: the same records, pending list, delay or deletion |
| `Ordering.Sort` | internal/dnsendpoint/writer.go:402-407 | the source's sorts: some sorted permutation, ties in any order |
| `Ordering.Compact` | internal/dnsendpoint/writer.go:410-421 | on any list keeps the elements and no two equal neighbours; on a sorted list drops exactly the repetitions |
| `Records.EndpointTargets` | internal/dnsendpoint/writer.go:425-433 | the set of (name, type, target) keys of a record list |
| `Records.NormalizeOne` | internal/dnsendpoint/writer.go:388-400 | one record normalised: targets sorted without repetition, properties sorted |
| `Records.NormalizeEndpoints` | internal/dnsendpoint/writer.go:382-408 | sorted by record id, targets sorted without repetition, properties sorted, keys unchanged; with distinct ids the result is the one list its keys and attributes determine, whatever the sort does with ties |
| `Records.NormalizeRecords` | internal/dnsendpoint/writer.go:351-380 | repeated records merged through a map walked in any order: one list, the union of targets, the first record's attributes |
| `Combine.CombineRecords` | internal/dnsendpoint/writer.go:435-471 | desired and pending targets joined through maps walked in any order: one list, with desired attributes winning over stored ones, of repeated desired ids the last, and empty records dropped |
| `Builder.LoadPending` | internal/dnsendpoint/writer.go:266-273 | fails exactly when a pending target is absent from the spec |
| `Builder.WalkTargets` | internal/dnsendpoint/writer.go:274-282 | starts a deadline for each undesired target without one and cancels desired ones, whatever the order of the walk |
| `Builder.ExpireDue` | internal/dnsendpoint/writer.go:286-290 | drops exactly the due entries |
| `Builder.StripOwner` | internal/dnsendpoint/writer.go:340-349 | drops exactly the owner references to the source |
| `Builder.BuildEndpoint` | internal/dnsendpoint/writer.go:243-338 | `build` step by step equals its specification; it fails exactly when the stored state is invalid |
| `Lifecycle.ParseLifecycle` | internal/dnsendpoint/lifecycle.go:47-90 | accepts exactly the valid documents (version, filled fields, canonical deadlines, no repeated target) and returns them sorted |
| `Lifecycle.MarshalLifecycle` | internal/dnsendpoint/lifecycle.go:92-103 | stamps the version and sorts; without a repeated target the text is the one listing of the deadlines |
| `Lifecycle.SortPending` | internal/dnsendpoint/lifecycle.go:105-115 | a sorted permutation; without a repeated target the one list sorted by name, type and target |
| `Lifecycle.MarshalRoundTrip` | internal/dnsendpoint/lifecycle.go:47-103 | parsing what was marshalled gives the same deadlines back |
| `Lifecycle.ListingUnique` | internal/dnsendpoint/lifecycle.go:105-115 | a sorted pending list is determined by its deadlines |
| `Advancer.SplitPending` | internal/dnsendpoint/writer.go:505-520 | splits the list into due and waiting, keeps the least remaining time seen so far, fails exactly when an entry is absent from the spec |
| `Advancer.FilterEndpoints` | internal/dnsendpoint/writer.go:524-539 | filtering the records in place gives the filtered list |
| `Advancer.FilteredIsLayout` | internal/dnsendpoint/writer.go:524-539 | what is left of a normal list after filtering is again its one normal form |
| `Advancer.AdvanceAttempt` | internal/dnsendpoint/writer.go:483-551 | one attempt of `Advance` equals its specification, fails exactly on invalid state, and lowers the delay it was given |
| `Advancer.AdvanceWithRetries` | internal/dnsendpoint/writer.go:481-553 | across conflict retries the delay is exactly the least remaining time over all attempts: positive while the last object read has waiting targets and never past their earliest deadline, exact without a conflict, possibly early or left over from a vanished object after one |
| `Drain.NextWakes` | internal/dnsendpoint/writer.go:511-519 | the delay is positive exactly while something waits and never oversleeps a deadline |
| `Drain.RequeueOnTime` | internal/controller/lifecycle_controller.go:116-120 | a wake finds something due exactly when it comes at or after the delay asked for |
| `Drain.WakeStep` | internal/controller/lifecycle_controller.go:111-120 | one retiring reconcile: exactly the targets not due at its second reading are left, all of them pending |
| `Drain.DeadlinesStay` | internal/controller/lifecycle_controller.go:111-116 | re-running retirement never moves a running deadline |
| `Drain.WakeShrinks` | internal/controller/lifecycle_controller.go:97-120 | an on-time wake strictly shrinks the pending list or deletes the object |
| `Drain.Drains` | internal/controller/lifecycle_controller.go:97-120 | DRAIN: on-time wakes delete the object of a retired source after at most as many wakes as it has pending targets |
| `Apply.Attempt` | internal/dnsendpoint/writer.go:203-241 | one attempt of `applyOne` equals its specification, including the nil create |
| `Apply.CheckListed` | internal/dnsendpoint/writer.go:146-166 | accepts exactly the listed objects that pass every check |
| `Apply.CheckPublications` | internal/dnsendpoint/writer.go:172-181 | accepts exactly publications with distinct non-empty providers and no negative delay |
| `Apply.SameObjects` | internal/dnsendpoint/writer.go:473-478 | decides equivalence up to the normal form of the records |
| `Apply.Writer.ListProviders` | internal/dnsendpoint/writer.go:141-171 | the listing: fails exactly when an object is invalid or a provider is listed twice |
| `Apply.Writer.ApplyProvider` | internal/dnsendpoint/writer.go:203-241 | writes exactly what `applyOne` computed, to that provider's object |
| `Apply.Writer.Apply` | internal/dnsendpoint/writer.go:140-201 | `Apply` equals its specification on the whole store, whose meaning is `ApplyLaws.ApplyDoes`; errors of the checks leave the store unchanged, the first error of a provider stops it |
| `Apply.FoldExact` | internal/dnsendpoint/writer.go:182-201 | isolation: each provider's object is what `applyOne` makes of it alone, every other object is untouched, and `Apply` succeeds exactly when every provider would |
| `Apply.OneQuiet` | internal/dnsendpoint/writer.go:203-241 | one provider twice: whatever the first call did (create, update, delete or nothing), the second before any deadline does nothing |
| `Apply.ApplyQuiet` | internal/dnsendpoint/writer.go:140-201 | QUIESCENCE of `Apply` from any well kept store: it succeeds, and the same call again before any deadline writes nothing, for every provider |
| `ApplyLaws.ApplyDoes` | internal/dnsendpoint/writer.go:140-201 | APPLY DOES WHAT IT IS FOR, from any well kept store: it succeeds; for every publication the object under its provider's name has exactly the desired targets active, its delay, and pending exactly the targets published before that are not yet due; every other provider of the source has all its remaining targets pending, or no object if it had none; every other object is as it was |
| `ApplyLaws.OneSettles` | internal/dnsendpoint/writer.go:203-241 | one provider: the object after `applyOne`, target by target, with running deadlines kept and new ones started from the old delay |
| `ApplyLaws.ForeignSpared` | internal/dnsendpoint/writer.go:225-227 | NOTHING FOREIGN IS WRITTEN, in any store: an object without the managed-by label or of another source keeps every field, and `Apply` fails when a publication needs its name |
| `ApplyLaws.DamagedRefused` | internal/dnsendpoint/writer.go:146-171 | one damaged object of the source (no readable lifecycle, bad delay, a pending target it does not publish, no provider, another's name), or two with one provider, and `Apply` fails without touching any object |
| `Reconcile.AdvanceObject` | internal/controller/lifecycle_controller.go:116-120 | the object after `Advance` and the requeue delay, or the failure |
| `Reconcile.LifecycleReconcile` | internal/controller/lifecycle_controller.go:58-121 | the whole effect of a reconcile on the store, in the five ways it ends; what decides between them is `Reconcile.GoneRetires`, `RecreatedWaits`, `PresentContinues` and `TerminalExactly` |
| `Reconcile.GoneRetires` | internal/controller/lifecycle_controller.go:97-120 | the source absent, or a Gateway route with Gateway off: the object is gone, or exactly its targets with a deadline after now are left, all pending, and the reconcile comes back exactly at the earliest deadline |
| `Reconcile.GoneOthers` | internal/controller/lifecycle_controller.go:111-115 | the same reconcile retires every other object of the source and touches no object of another one |
| `Reconcile.RecreatedWaits` | internal/controller/lifecycle_controller.go:105-109 | the source present under another UID: the store is unchanged and nothing is scheduled |
| `Reconcile.PresentContinues` | internal/controller/lifecycle_controller.go:116-120 | the source present under the same UID: exactly the due targets go, the active ones and every other field stay, no other object changes, and the reconcile comes back by the earliest deadline left |
| `Reconcile.TerminalExactly` | internal/controller/lifecycle_controller.go:69-96 | a managed object is called invalid if and only if its pending list is unreadable, its source kind unknown, a field empty, or its namespace, source key or name not that of the source its annotations name; it is then left alone, as is an object that is not managed |
| `Reachable.ReconcileAlways` | internal/controller/lifecycle_controller.go:97-120 | THE LIFECYCLE CONTROLLER ON EVERY REACHABLE STORE, from the source it looks up and the object's fields: a gone source retires every target, a recreated one is left alone, a present one only expires what is due |
| `Reachable.GoneAlwaysRetiresAll` | internal/controller/lifecycle_controller.go:111-115 | on every reachable store the reconcile of a gone source retires all objects of that source and no other |
| `Reachable.GoneDrains` | internal/controller/lifecycle_controller.go:97-120 | DRAIN FROM A GONE SOURCE, along any run: when each reconcile comes when the last one asked for and nobody else writes the object, as many reconciles as it has targets and one more delete it |
| `Reachable.StoreKept` | internal/dnsendpoint/writer.go:140-201 | every store a concurrent run reaches is well kept for every source: what is listed for it or lies under one of its names is its own, its names are distinct, and no object repeats a record id; the hash must not collide on the texts involved |
| `Reachable.ListingAlwaysGood` | internal/dnsendpoint/writer.go:146-171 | the listing checks of `Apply` pass for every source in every world of every run, and no provider is listed twice |
| `Reachable.ApplyAlwaysQuiet` | internal/dnsendpoint/writer.go:140-201 | QUIESCENCE on every reachable store: with publications as resolved `Apply` succeeds, and the same call again before any deadline writes nothing |
| `Reachable.ApplyAlwaysDoes` | internal/dnsendpoint/writer.go:140-201 | `ApplyLaws.ApplyDoes` on every store a concurrent run reaches, with publications as the source controllers resolve them |
| `Reachable.RetireAlwaysWakes` | internal/controller/lifecycle_controller.go:97-120 | on every reachable store, the source being absent or a Gateway route with Gateway off: the reconcile does to its object exactly one wake of the drain theorem, whatever the source's other objects are |
| `Retirement.DropStarts` | internal/dnsendpoint/writer.go:274-291 | a committed drop leaves every remaining target pending |
| `Retirement.ChangesCost` | internal/dnsendpoint/writer.go:235-239 | along a retirement every commit that changes the records costs at least one target |
| `Retirement.RunsDrain` | internal/controller/lifecycle_controller.go:97-120 | RETIREMENT IN EVERY RUN: once all targets are pending and only drops, expiries and edits of unrelated metadata commit, no deadline moves, at most as many commits change the records as targets were pending, and a drop or expiry committed with every deadline passed is the last commit: the object is gone |
| `Naming.SanitizeText` | internal/dnsendpoint/writer.go:115-130 | the scan with its dash flag equals the specification |
| `Naming.SanitizeTidies` | internal/dnsendpoint/writer.go:115-130 | the result is letters and digits with single dashes between them, and a text is left alone exactly when it is that already |
| `Naming.SanitizeKeepsLetters` | internal/dnsendpoint/writer.go:115-130 | the letters and digits of the text survive, lower-cased, in their order |
| `Naming.NameLegal` | internal/dnsendpoint/writer.go:102-113 | every name has at most 253 characters of [a-z0-9-] and starts and ends alphanumeric (section 2.1 of RFC 1123) |
| `Naming.NamesIsolate` | internal/dnsendpoint/writer.go:91-113 | ISOLATION: two names are equal exactly when source and provider are, the UID apart, unless the hash collides on the two texts |
| `Naming.IdentityTextInjective` | internal/dnsendpoint/writer.go:91-103 | joining NUL-free fields with NUL is injective |
| `Names.NormalizedIsFixed` | internal/source/names.go:26-42 | normalised names are hostnames and fixed points of normalisation, here and in the writer |
| `Names.HostnamesAreFixed` | internal/source/names.go:26-42 | the fixed points of normalisation are exactly the hostnames (wildcard label included), and a trailing dot changes nothing |
| `Names.NormalizeExact` | internal/source/names.go:26-42 | NORMALISATION, exactly: a value is accepted if and only if, between spaces, in any letter case and with or without a final dot, it is a hostname, and gives that hostname |
| `Names.InZonesExact` | internal/source/names.go:44-54 | IN A ZONE, from the labels: a hostname, its wildcard label apart, is in the zones exactly when the labels of some zone, in any letter case and with or without a final dot, are its last labels |
| `Names.WithinIsLabels` | internal/source/names.go:44-54 | the suffix test is a test on whole labels |
| `Names.MatchingZone` | internal/source/names.go:44-54 | the result is non-empty exactly when some non-empty zone is the host or a label-boundary suffix of it, and is a longest such zone |
| `Names.BestUnique` | internal/source/names.go:44-54 | the match does not depend on order or repetition of the zones |
| `AnnotationText.MergeAnnotations` | internal/source/annotations.go:43-61 | merging equals its specification |
| `AnnotationText.MergedAt` | internal/source/annotations.go:53-61 | a key has the value of the last level that mentions it, and is present exactly when it is relevant and some level does |
| `Text.FieldsJoin` | internal/source/annotations.go:140-141 | splitting cuts exactly at the separators |
| `AnnotationText.CommaList` | internal/source/annotations.go:140-149 | the trimmed non-empty items, sorted, each once |
| `AnnotationText.SplitTokens` | internal/controller/setup.go:279-287 | the index tokenises the same way: the set of the same items |
| `AnnotationText.FamilyList` | internal/source/annotations.go:164-175 | address families each once and sorted, or a refusal |
| `AnnotationText.ParseAnnotations` | internal/source/annotations.go:80-138 | refuses exactly what is malformed; otherwise every field as its items say |
| `Projection.IngressProjection` | internal/source/projection.go:105-188 | the rule and TLS loops compute the set comprehension: per hostname the backends of its rules, or the default backend for a TLS-only one; refuses exactly when a hostname is invalid |
| `Projection.RouteProjection` | internal/source/projection.go:301-349 | every hostname with the set of usable backends; refuses exactly on an invalid own hostname |
| `Projection.RouteHostsExact` | internal/source/projection.go:301-349 | what a route projects, from the fields: a hostname (an override, or without overrides an own one of an HTTPRoute) with exactly the backends it may refer to; refused exactly on an invalid own hostname |
| `Projection.IngressHostsExact` | internal/source/projection.go:105-188 | what an Ingress projects, from the fields: with overrides each with the default service and every service of a used rule; without, a hostname of rules with their services, a TLS-only one with the default service |
| `Influence.GrantOfOthers` | internal/source/projection.go:367-384 | NON-INTERFERENCE: adding or removing a grant all of whose `to` entries name other Services, or all of whose `from` entries name other namespaces or kinds, changes neither the projection nor the publications |
| `Projection.RouteBackend` | internal/source/projection.go:351-386 | some backend exactly when the reference is to a Service of the route's namespace, or some grant of the backend's namespace has a `from` with the Gateway group, the route's kind and namespace and a `to` with the core group, kind Service and no name or the backend's, said on the fields |
| `Projection.Permission` | internal/source/projection.go:367-384 | a grant permits exactly when it opens the Service to the route, said on the fields of one `from` and one `to` |
| `Projection.ProjectionSet` | internal/source/projection.go:388-397 | drops hostnames without backends and sorts the rest |
| `Projection.BackendSet` | internal/source/projection.go:399-406 | lists the set, sorted by key |
| `Projection.RouteBackendRefs` | internal/source/projection.go:268-291 | all references of all rules, in order |
| `Resolver.LabelCodec` | internal/source/resolver.go:250-268 | over all unmapped IPv6 addresses: encoding to the dash form and parsing gives the address back exactly when its zone has no dash, and such an address is accepted under exactly one label |
| `Resolver.LabelCodecV4` | internal/source/resolver.go:236-249 | an IPv4 address is accepted under exactly the text it prints |
| `NetAddr.LongestIs` | internal/source/resolver.go:264-268 | canonical text compresses the first longest run of at least two zero groups (section 4.2 of RFC 5952) |
| `NetAddr.GroupsRead` | internal/source/resolver.go:257-268 | eight groups printed canonically, compressed or not, read back |
| `NetAddr.V6Reads` | internal/source/resolver.go:257-268 | every printed IPv6 address reads back, zone included |
| `NetAddr.OctetsCodec` | internal/source/resolver.go:241-248 | four octets are read from exactly the text they print |
| `Resolver.BackendTargets` | internal/source/resolver.go:145-223 | fails exactly when the Service or a Node is missing or an address label is no address; otherwise an address is answered for a family exactly when it is what the provider's label for it says on a node of an endpoint not marked unready of a slice of the service, said on the fields; sorted, each once |
| `Resolver.ReadyNodeNames` | internal/source/resolver.go:162-177 | a node is named exactly when a slice of the service has an endpoint on it that is not marked unready, said on the fields |
| `Resolver.BackendExact` | internal/source/resolver.go:145-223 | the addresses of a backend, from the fields of slices, endpoints and node labels |
| `Resolver.ResolvesExact` | internal/source/resolver.go:145-223 | when a backend resolves, from the fields |
| `Influence.UnreadyIgnored` | internal/source/resolver.go:167-169 | replacing endpoints marked unready by none changes no publication of any Ingress or route |
| `Resolver.NodeTargets` | internal/source/resolver.go:195-210 | one node adds exactly its readable addresses, or stops on a malformed one |
| `Resolver.HostTargets` | internal/source/resolver.go:112-123 | the union over the backends of a hostname |
| `Publisher.AppendHost` | internal/source/resolver.go:107-135 | one hostname appends exactly its records |
| `Publisher.ResolveRecords` | internal/source/resolver.go:107-142 | the nested loops and the final sort give the one sorted list of records, or fail exactly when a backend of a hostname in a zone does not resolve |
| `Publisher.ProviderProperties` | internal/source/projection.go:408-427 | defaults overridden by allow-listed annotations, sorted by name |
| `Publisher.MetadataAt` | internal/source/projection.go:428-433 | exactly the annotations under ExternalDNS's prefix are copied, with their values |
| `Publisher.ResolvePublication` | internal/source/resolver.go:66-143 | one publication as specified, or a refusal exactly when a backend does not resolve; what its settings are is `Influence.IngressSettings` |
| `Publisher.LoadProviders` | internal/controller/source_controller.go:326-348 | exactly the named providers that exist, sorted; each once when named once |
| `Publisher.ResolvePublications` | internal/source/resolver.go:46-64 | all providers, or nothing when one fails |
| `ResolverLaws.RecordExact` | internal/source/resolver.go:66-143 | RESOLVER REFINEMENT, from the fields: a record exists for (host, family) exactly when the host is in a zone and some node with an endpoint not marked unready of one of its backends carries an address of the family under the provider's label; its targets are exactly those addresses, sorted, each once; there is no other record |
| `ResolverLaws.RecordsGood` | internal/source/resolver.go:107-135 | every record has filled fields, targets, a fixed-point name and lies in a zone of its provider |
| `ResolverLaws.NothingDiscarded` | internal/dnsendpoint/writer.go:367-372 | with distinct ids the writer's merge keeps every record's attributes |
| `ResolverLaws.IngressOutcomeGood` | internal/controller/source_controller.go:55-118 | every publication of an Ingress is accepted by the writer, one for one, never a create of nothing, and no two name one provider |
| `ResolverLaws.RouteOutcomeGood` | internal/controller/source_controller.go:185-256 | the same for Gateway routes |
| `Pipeline.ResolvedAdmissible` | internal/controller/source_controller.go:55-118 | what the source controllers hand over satisfies the assumptions of the theorems about concurrent runs |
| `Pipeline.ResolvedAccepted` | internal/dnsendpoint/writer.go:172-181 | and those of `Apply` |
| `Sources.ReadIngressAnnotations` | internal/controller/source_controller.go:120-144 | refused exactly when a class is named and missing; otherwise, key by key, the relevant annotation of the Ingress itself, else that of its class |
| `Sources.MergedInherits` | internal/source/annotations.go:53-61 | merging two levels is inheriting key by key, an empty value included |
| `Sources.ReadRouteAnnotations` | internal/controller/source_controller.go:258-307 | the one value all supported parent chains agree on, or a refusal |
| `Sources.ResolveIngress` | internal/controller/source_controller.go:55-118 | the publications computed for an Ingress are a function of the cluster state |
| `Sources.ResolveRoute` | internal/controller/source_controller.go:185-256 | the same for a Gateway route |
| `SourceLaws.IngressTarget` | internal/controller/source_controller.go:55-118 | WHAT AN INGRESS PUBLISHES: the exact set of (provider, hostname, family, address), from its fields, its annotations and the fields of Services, slices, nodes and providers alone |
| `SourceLaws.RouteTarget` | internal/controller/source_controller.go:185-256 | WHAT A ROUTE PUBLISHES: the same, with hostnames, backend references and grants |
| `SourceLaws.TargetExact` | internal/source/resolver.go:46-143 | the part common to both: enabled, provider named and present, family asked for or supplied, hostname in a zone, address reached |
| `Influence.IngressSettings` | internal/source/resolver.go:86-102 | THE SETTINGS of every publication of an Ingress: the deletion delay and TTL of the annotation if given, else of the provider, else 60 s and 300; an allow-listed annotation beats the default of its name and every other default survives; copied metadata is exactly what lies under ExternalDNS's prefix |
| `Influence.RouteSettings` | internal/source/resolver.go:86-102 | the same for Gateway routes |
| `Influence.IngressUnder` | internal/source/resolver.go:86-102 | NON-INTERFERENCE: two states whose providers differ only in the delay (the TTL) that the annotation of the Ingress overrides give equal publications |
| `Influence.RouteUnder` | internal/source/resolver.go:86-102 | the same for Gateway routes |
| `Influence.IngressInherits` | internal/controller/source_controller.go:120-144 | which class an Ingress inherits from, from its fields, and what when the class is missing or none is named |
| `Influence.RouteInherits` | internal/controller/source_controller.go:258-307 | from every Gateway a route names, which must be there with its class: key by key the route's own relevant value, else the Gateway's, else the class's |
| `Refusal.IngressRefused` | internal/controller/source_controller.go:55-118 | AN INGRESS IS REFUSED exactly when its class is missing, an annotation cannot be read, or (enabled and selecting a provider) it has an invalid hostname where it needs one or a broken backend, said on the fields |
| `Refusal.RouteRefused` | internal/controller/source_controller.go:185-256 | A ROUTE IS REFUSED exactly when its Gateways do not give it one set of annotations, one of these cannot be read, or (enabled and selecting a provider) it has an invalid own hostname or a broken backend it may refer to |
| `Refusal.RouteUninherited` | internal/controller/source_controller.go:258-307 | the annotations of a route are refused exactly when a Gateway it names or its class is missing or two Gateways give it different ones; without Gateways it has its own |
| `Refusal.ParseRefuses` | internal/source/annotations.go:80-138 | when annotations cannot be read, from their texts |
| `Index.IngressComplete` | internal/controller/setup.go:180-287 | INDEX COMPLETENESS for Ingresses: if two states differ in one Service, EndpointSlice, Node, IngressClass or DNSProvider and the publications differ, the Ingress is indexed under the object as it was or as it is |
| `Index.RouteComplete` | internal/controller/setup.go:207-287 | the same for Gateway routes, with Gateways, GatewayClasses and ReferenceGrants; the one exception is a grant change for a route that has the gap of `Index.GrantsCovered` |
| `Index.GrantsCovered` | internal/controller/setup.go:221-227 | the exact condition, at publications: from any state in which a route resolves, all grant changes that change its publications map it if and only if no cross-namespace Service reference spells out an empty namespace, or no hostname of the route lies in a zone of a provider it selects |
| `Index.GrantMissed` | internal/controller/setup.go:453-455 | the failing family: from any state in which such a route resolves, one more grant in some namespace makes it fail and does not map it |
| `Index.AdmittedHasNoGap` | internal/controller/setup.go:221-227 | routes as the Gateway API admits them never have the gap |
| `Index.IngressBackendIndexed` | internal/controller/setup.go:180-196 | every backend an Ingress can publish has its index key |
| `Index.RouteTokens` | internal/controller/setup.go:245-247 | every provider a route can name is a token of the route, of a parent Gateway or of its class |
| `Index.IngressTokens` | internal/controller/setup.go:245-247 | every provider an Ingress can name is a token of the Ingress or of its class |
| `Mapper.ComputeIngressBackendKeys` | internal/controller/setup.go:180-196 | the loops compute the index keys of an Ingress |
| `Mapper.ComputeRouteBackendKeys` | internal/controller/setup.go:207-220 | the loops compute the index keys of a route |
| `Mapper.Dedupe` | internal/controller/setup.go:556-566 | the same requests, each once |
| `Mapper.ListIndexed` | internal/controller/setup.go:326-361 | whether the index or the fallback answers, everything indexed under the value is returned; nothing when both fail |
| `Mapper.SourcesForNode` | internal/controller/setup.go:400-427 | every source whose service has a slice naming the node, when no list exhausts its fallback |
| `Mapper.SourcesForSlice` | internal/controller/setup.go:382-393 | every source of the slice's service |
| `Mapper.IngressesForProvider` | internal/controller/setup.go:456-478 | every Ingress that names the provider itself or through its class |
| `Mapper.RoutesForGatewayClass` | internal/controller/setup.go:431-452 | every route with a parent Gateway of the class |
| `Mapper.RoutesForProvider` | internal/controller/setup.go:479-519 | every route that names the provider itself, through a Gateway or through its class |
| `Mapper.MapIngresses` | internal/controller/setup.go:66-87 | end to end: when no list exhausts its fallback, every Ingress whose publications the change affects is among the requests |
| `Mapper.MapRoutes` | internal/controller/setup.go:88-105 | end to end for Gateway routes, with the exception of `Index.RouteComplete` |
| `Inspect.RecordsFor` | internal/cli/inspect.go:101-152 | one entry for each matching record: all targets, exactly the pending ones with their deadlines, exactly the others as active; no active targets when the lifecycle is invalid |
| `Inspect.MatchingExact` | internal/cli/inspect.go:101-107 | the records shown are exactly those of the wanted type in any letter case, all of them without a filter |
| `Inspect.ShownIsPublished` | internal/cli/inspect.go:101-152 | THE CLI AGREES WITH THE WRITER: on every reachable object active and retiring are disjoint and cover all targets, and active is what the last committed publication desired for that record |
| `Diagnostics.StepKeeps` | internal/controller/diagnostics.go:146-256 | CACHE INVARIANT, kept by every call: list and map in bijection, within capacity, between 1 and 128 conditions for each source |
| `Diagnostics.AlwaysGood` | internal/controller/diagnostics.go:74-82 | the invariant in every run from the empty cache |
| `Diagnostics.AlwaysRecent` | internal/controller/diagnostics.go:204-225 | the list is in recency order in every run |
| `Diagnostics.RemovalReason` | internal/controller/diagnostics.go:187-256 | a record goes only for a reason: the least recently touched source of a full cache, an oldest condition of a full table and never the reported one, a clear that did not see it, a delete of its source |
| `Diagnostics.RateLimit` | internal/controller/diagnostics.go:146-165 | RATE LIMIT: two emissions closer than the interval have a removal of the record between them, whatever the clock readings |
| `Diagnostics.NeverHidden` | internal/controller/diagnostics.go:146-165 | at every report the diagnostic is emitted now or was less than one interval before |
| `Diagnostics.ClearedEmits` | internal/controller/diagnostics.go:227-256 | after a clear that did not see a diagnostic, or a delete of its source, it is not held, and the next report of it is emitted however soon it comes |
| `Emitter.EvictOldest` | internal/controller/diagnostics.go:187-202 | removes an oldest condition that is not protected, or nothing when there is none |
| `Emitter.DiagnosticEmitter.MakeRoom` | internal/controller/diagnostics.go:213-221 | drops exactly the sources at the back, down to one below capacity |
| `Emitter.DiagnosticEmitter.Touched` | internal/controller/diagnostics.go:204-225 | the source is at the front, created if new |
| `Emitter.DiagnosticEmitter.ReportDiagnostic` | internal/controller/diagnostics.go:146-161 | the call is a report step of the state machine and answers whether to emit |
| `Emitter.DiagnosticEmitter.ClearMissing` | internal/controller/diagnostics.go:227-245 | the call is a clear step |
| `Emitter.DiagnosticEmitter.DeleteSource` | internal/controller/diagnostics.go:247-256 | the call is a delete step, whatever the UIDs |
| `Table.FillWidths` | internal/cli/output.go:154-179 | each aligned cell gets the width of the widest cell in the contiguous rows that share its column |
| `Table.WriteTableBlock` | internal/cli/output.go:153-197 | the text of a block |
| `Table.WriteTable` | internal/cli/output.go:132-151 | blocks and blank lines in turn |
| `Table.PaddingAtLeastTwo` | internal/cli/output.go:182-191 | padding is at least two |
| `Table.CellsAlign` | internal/cli/output.go:160-191 | ELASTIC TAB STOPS: adjacent rows that share a column start the following cell at the same offset |
| `Table.RowsStrip` | internal/cli/output.go:78-103 | removing the colour codes from a coloured block gives the plain block |
| `Table.TableStrips` | internal/cli/output.go:132-197 | the same for whole tables, when no cell contains an escape |

## Left out

- JSON, RFC 3339 and duration text: the lifecycle annotation and the delay are kept as the values they decode
  to, with a case for what the decoder rejects; every structural check remains.
- SHA-256: a parameter; only the length and alphabet of hashes and their not colliding on given texts are
  assumed, where a lemma says so.
- NetAddr.ParseAddr: a last group in dotted decimal form is not read, and mapped addresses are not printed; no
  accepted label holds a dot, and mapped addresses are refused before they are printed.
- Label and annotation keys of managed objects are constructors instead of strings; the deletion-delay and
  lifecycle annotations are fields of the object.
- Record ids are pairs; the source joins name and type with NUL, which is the same on NUL-free fields
  (`Naming.NulJoin`).
- Nil list entries, the difference between nil and empty slices, object status and type metadata.
- Case folding is ASCII only; lengths count code points, where the source counts bytes.
- Overflow and saturation of Go times and durations.
- Owner references are compared by API version, kind and name and carry nothing else.
- Transient API errors of reads and writes other than conflicts; context cancellation; the retry limit only as
  a finite list of attempts (`Advancer.AdvanceWithRetries`).
- Clock skew between manager processes and hand edits of managed fields; edits of unrelated metadata are in
  the model (`History.Op`).
- Diagnostic wording, event recording, logging, metrics and the session that collects diagnostics of one
  reconcile; the model of the rate limiter has its lock order as the order of calls.
- Indexes of DNSEndpoints, their mapping back to sources, watch delivery and caches; both the old and the new
  object are mapped on an update.
- The rest of the CLI, the DNS lookup, startup checks, flags, generated code and manifests: only easy members.
- Records.NormalizeEndpoints: with repeated record ids, which the writer never leaves, the order of the tied
  records stays open, because the source's sort leaves it open.
- Builder.BuildEndpoint: equal to its specification when the current object has no repeated record ids, for
  the same reason; the error case has no such condition.
- Advancer.AdvanceAttempt: the same condition as `Builder.BuildEndpoint`.
- Apply.Attempt: the same condition as `Builder.BuildEndpoint`.
- Apply.Writer.Apply: one caller at a time and one clock reading for each provider; interference is the subject
  of `Protocol`, where every attempt is a task of its own.
- Protocol.ReadingsInOrder: says nothing of creates, because there the order fails for every publication with a
  target (`Protocol.StaleCreate`).
- Sources.ResolveIngress: a refusal is one value; which of several errors is reported first is not modelled.
- Sources.ResolveRoute: the same as `Sources.ResolveIngress`.
- Inspect.RecordsFor: properties, source reference and observation state of a shown record are not modelled.
- Apply.SameObjects: the same condition as `Builder.BuildEndpoint`.
- Apply.Writer.ApplyProvider: stated for stores without repeated record ids, which `Reachable.StoreKept` shows of
  every reachable store.
- Reconcile.AdvanceObject: the same condition as `Apply.Writer.ApplyProvider`.
- Reconcile.LifecycleReconcile: the same condition as `Apply.Writer.ApplyProvider`.
- Drain.Drains: over the wakes of one object alone; `Reachable.GoneDrains` and `Retirement.RunsDrain` are the
  statements over runs.
