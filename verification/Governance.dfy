/**
The frozen records the validators read, with the fields they use.  Timestamps are integers.
What a record's constructor enforces is a predicate beside the record.
*/
module Governance {
  import opened Artifacts
  import opened Sequences

  datatype Lifecycle = Draft | Accepted | Frozen | Superseded

  datatype Outcome = Execute | Abstain

  datatype CredentialStatus = Active | Suspended | Revoked

  datatype Role = WitnessConflictAdjudicator

  /** Record IDs are a fixed prefix and a name of their own. */
  predicate Derived(prefix: string, id: string) {
    prefix < id
  }

  const ATTESTATION_PREFIX := "adjudicator-credential:"
  const ADJUDICATION_PREFIX := "witness-conflict-adjudication:"

  datatype Plan = Plan(
    experimentId: string, experimentVersion: string, status: Lifecycle,
    corpusRef: VersionedRef, contentIds: seq<string>)
  {
    ghost predicate Constructed() {
      Distinct(contentIds) && (status == Frozen ==> contentIds != [])
    }
  }

  datatype Adjudicator = Adjudicator(id: string, revision: string, role: Role)

  datatype AdjudicatorRegistry = AdjudicatorRegistry(
    reference: VersionedRef, status: Lifecycle, adjudicators: seq<Adjudicator>)
  {
    function Ids(): (ids: seq<string>)
      ensures |ids| == |adjudicators|
      ensures forall i :: 0 <= i < |ids| ==> ids[i] == adjudicators[i].id
    {
      seq(|adjudicators|, i requires 0 <= i < |adjudicators| => adjudicators[i].id)
    }

    ghost predicate Constructed() {
      adjudicators != [] && Distinct(Ids())
    }
  }

  datatype Issuer = Issuer(id: string, revision: string, active: bool, credentialTypes: set<string>)

  datatype IssuerRegistry = IssuerRegistry(reference: VersionedRef, status: Lifecycle, issuers: seq<Issuer>) {
    function Lookup(id: string): Option<Issuer> {
      FirstIssuer(issuers, id)
    }

    ghost predicate Constructed() {
      && issuers != []
      && (forall i, j :: 0 <= i < j < |issuers| ==> issuers[i].id != issuers[j].id)
      && (forall i :: 0 <= i < |issuers| ==> issuers[i].credentialTypes != {})
    }
  }

  function FirstIssuer(issuers: seq<Issuer>, id: string): (found: Option<Issuer>)
    ensures found.Some? ==> found.value in issuers && found.value.id == id
    ensures found.None? <==> forall i :: 0 <= i < |issuers| ==> issuers[i].id != id
  {
    if issuers == [] then None
    else if issuers[0].id == id then Some(issuers[0])
    else FirstIssuer(issuers[1..], id)
  }

  /** An issuer's attestation of one adjudicator identity revision. */
  datatype Attestation = Attestation(
    reference: Ref, adjudicatorId: string, revision: string, credentialType: string,
    issuerId: string, issuerRevision: string, roles: seq<Role>,
    status: CredentialStatus, validFrom: int, validUntil: int)
  {
    ghost predicate Constructed() {
      Derived(ATTESTATION_PREFIX, reference.id) && Distinct(roles) && validFrom < validUntil
    }
  }

  datatype CredentialPolicy = CredentialPolicy(
    reference: VersionedRef, status: Lifecycle, issuerRegistryRef: VersionedRef,
    adjudicatorRegistryRef: VersionedRef, credentialType: string, requireExactRoleMatch: bool)
  {
    /** The constructor also forces the abstention flags; no check reads those. */
    ghost predicate Constructed() {
      requireExactRoleMatch
    }
  }

  datatype ResolutionStatus = NotRequired | Pending | Resolved | Unresolved

  datatype ForkEvidence = ForkEvidence(witnessId: string, attestationRef: Ref, expectedHead: Ref, observedHead: Ref)

  datatype Dissent = Dissent(witnessId: string, attestationRef: Ref, observedHead: Ref, note: string)

  /** The recorded human adjudication of a witness conflict. */
  datatype Adjudication = Adjudication(
    reference: Ref, witnessPredecessorRef: VersionedRef, witnessRegistryRef: VersionedRef,
    witnessPolicyRef: VersionedRef, adjudicatorRegistryRef: VersionedRef, adjudicationPolicyRef: VersionedRef,
    checkpointHead: Ref, status: ResolutionStatus, adjudicatorId: Option<string>,
    adjudicatorRevision: Option<string>, selectedHead: Option<Ref>, forkEvidence: seq<ForkEvidence>,
    preservedDissent: seq<Dissent>, rationale: string, decidedAt: int)
  {
    /** Each resolution status admits its own fields only, and a decision keeps every dissent. */
    ghost predicate Constructed() {
      && Derived(ADJUDICATION_PREFIX, reference.id) && rationale != ""
      && (forall i, j :: 0 <= i < j < |forkEvidence| ==> forkEvidence[i].witnessId != forkEvidence[j].witnessId)
      && (forkEvidence == [] <==> status == NotRequired)
      && (adjudicatorId.Some? <==> status in {Resolved, Unresolved})
      && (adjudicatorRevision.Some? <==> status in {Resolved, Unresolved})
      && (selectedHead.Some? <==> status == Resolved)
      && |preservedDissent| == (if status in {Resolved, Unresolved} then |forkEvidence| else 0)
      && (forall i :: 0 <= i < |preservedDissent| ==>
            var fork, dissent := forkEvidence[i], preservedDissent[i];
            && fork.witnessId == dissent.witnessId && fork.attestationRef == dissent.attestationRef
            && fork.observedHead == dissent.observedHead)
    }
  }
}
