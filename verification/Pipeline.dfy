/** From the resolver to the writer: what the source controllers compute is what the theorems about the
    writer assume. */
module Pipeline {
  import opened Lifecycle
  import opened Objects
  import opened Cluster
  import opened ResolverLaws
  import opened WriterSpec
  import opened WriterLaws
  import opened History
  import opened Acceptance
  import Protocol
  import A = Apply

  /** An identity as a source controller builds it from an object it has read. */
  predicate SourceIdentity(id: Identity) {
    ApiVersionFor(id.kind) == Some(id.apiVersion) && id.namespace != "" && id.name != "" && id.uid != ""
  }

  /** Every publication a source controller hands over may be started on its object: the theorems about
      runs of the protocol apply to it. */
  lemma ResolvedAdmissible(hash16: string -> string, c: State, pubs: seq<Publication>, i: nat, id: Identity)
    requires GoodOutcome(c, pubs) && i < |pubs| && SourceIdentity(id)
    ensures
      var p := pubs[i].providerName;
      Protocol.Admissible(hash16, A.KeyFor(hash16, id, p), Publish(id, p, pubs[i], true))
  {
    hide ObjectName;
    assert WellResolved(c.providers[pubs[i].providerName], pubs[i]);
  }

  /** And all of them together are accepted by `Apply`, which is then quiet when repeated. */
  lemma ResolvedAccepted(c: State, pubs: seq<Publication>)
    requires GoodOutcome(c, pubs)
    ensures A.GoodPublications(pubs) && forall i :: 0 <= i < |pubs| ==> A.Targeted(pubs[i])
    ensures forall p :: p in A.Desired(pubs) ==> A.Targeted(A.Desired(pubs)[p])
  {
    forall i | 0 <= i < |pubs| ensures pubs[i].deletionDelay >= 0 && A.Targeted(pubs[i]) {
      assert WellResolved(c.providers[pubs[i].providerName], pubs[i]);
    }
    hide WellResolved, A.Targeted, A.Desired;
    forall p | p in A.Desired(pubs) ensures A.Targeted(A.Desired(pubs)[p]) {
      var i := A.DesiredAt(pubs, p);
    }
  }
}
