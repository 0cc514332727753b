/**
The two gates in front of execution: named witnesses of the checkpoint head, and the recorded
adjudication of their conflicts.

A witness observes one head.  The first gate abstains as soon as one witness saw another head;
the second lets execution through only if nobody did, or an authorized adjudicator resolved the
conflict in favour of the declared head.  Neither gate counts votes.
*/
module WitnessGate {
  import opened Artifacts
  import opened Sequences
  import opened Governance
  import opened EventHistory
  import C = CheckpointLog
  import L = RevocationLedger

  datatype WitnessRecord = WitnessRecord(id: string, revision: string)

  datatype WitnessRegistry = WitnessRegistry(reference: VersionedRef, status: Lifecycle, witnesses: seq<WitnessRecord>) {
    function Ids(): (ids: seq<string>)
      ensures |ids| == |witnesses|
      ensures forall i :: 0 <= i < |ids| ==> ids[i] == witnesses[i].id
    {
      seq(|witnesses|, i requires 0 <= i < |witnesses| => witnesses[i].id)
    }

    ghost predicate Constructed() {
      witnesses != [] && Distinct(Ids())
    }
  }

  /** The first record with this ID, as the registry looks it up. */
  function FirstWitness(witnesses: seq<WitnessRecord>, id: string): (found: Option<WitnessRecord>)
    ensures found.Some? ==> found.value in witnesses && found.value.id == id
    ensures found.None? ==> forall i :: 0 <= i < |witnesses| ==> witnesses[i].id != id
  {
    if witnesses == [] then None
    else if witnesses[0].id == id then Some(witnesses[0])
    else FirstWitness(witnesses[1..], id)
  }

  datatype WitnessPolicy = WitnessPolicy(
    reference: VersionedRef, status: Lifecycle, registryRef: VersionedRef, requiredIds: seq<string>,
    abstainOnConflictingHead: bool, forbidVoteAggregation: bool)
  {
    ghost predicate Constructed() {
      requiredIds != [] && Distinct(requiredIds) && abstainOnConflictingHead && forbidVoteAggregation
    }
  }

  datatype Kind = MatchesHead | ConflictingHead

  datatype WitnessAttestation = WitnessAttestation(
    reference: Ref, witnessId: string, witnessRevision: string, checkpointCorpusRef: VersionedRef,
    checkpointLogRef: VersionedRef, expectedHead: Ref, observedHead: Ref, kind: Kind,
    observedAt: int, receivedAt: int)
  {
    predicate Constructed() {
      && Derived(WITNESS_ATTESTATION_PREFIX, reference.id)
      && kind == (if observedHead == expectedHead then MatchesHead else ConflictingHead)
      && observedAt <= receivedAt
    }
  }

  const WITNESS_ATTESTATION_PREFIX := "checkpoint-witness-attestation:"

  /** One document: the witness fields beside the checkpoint corpus they extend. */
  datatype WitnessCorpus = WitnessCorpus(
    corpus: C.CheckpointCorpus, predecessorRef: VersionedRef, registryRef: VersionedRef,
    policyRef: VersionedRef, attestationRefs: seq<Ref>)

  datatype WitnessInputs = WitnessInputs(
    plan: Plan, corpus: WitnessCorpus, registry: WitnessRegistry, policy: WitnessPolicy,
    head: C.Checkpoint, attestations: seq<WitnessAttestation>, evaluatedAt: int)

  datatype Observation = Observation(
    witnessId: string, attestationRef: Ref, kind: Kind, expectedHead: Ref, observedHead: Ref, reasons: seq<string>)

  datatype WitnessDecision = WitnessDecision(
    experimentId: string, experimentVersion: string, corpusRef: VersionedRef, registryRef: VersionedRef,
    policyRef: VersionedRef, headRef: Ref, outcome: Outcome, observations: seq<Observation>, evaluatedAt: int)

  datatype Refusal =
    | BindingsDiffer | PopulationDiffers | HeadDiffers | RepeatedWitness | OrderDiffers | UnknownWitness
    | RevisionDiffers | CorpusDiffers | LogDiffers | ExpectedHeadDiffers | ObservedBeforePublication
    | ReceivedAfterEvaluation

  datatype WitnessVerdict = Decided(decision: WitnessDecision) | Refused(refusal: Refusal)

  ghost predicate WitnessInputsConstructed(v: WitnessInputs) {
    && v.registry.Constructed() && v.policy.Constructed()
    && forall i :: 0 <= i < |v.attestations| ==> v.attestations[i].Constructed()
  }

  function References(attestations: seq<WitnessAttestation>): (refs: seq<Ref>)
    ensures |refs| == |attestations|
    ensures forall i :: 0 <= i < |refs| ==> refs[i] == attestations[i].reference
  {
    seq(|attestations|, i requires 0 <= i < |attestations| => attestations[i].reference)
  }

  predicate WitnessBindings(v: WitnessInputs) {
    && v.plan.status == Frozen
    && v.plan.corpusRef == v.corpus.corpus.reference && v.plan.contentIds == v.corpus.corpus.contentIds
    && v.corpus.registryRef == v.registry.reference
    && v.corpus.policyRef == v.policy.reference
    && v.registry.status == Accepted
    && v.policy.status == Accepted
    && v.policy.registryRef == v.registry.reference
    && v.policy.requiredIds == v.registry.Ids()
  }

  // ----- what an acceptable witness population is -----

  /** The i-th attestation is the i-th registered witness's, about this corpus, log and head, and in time. */
  predicate Speaks(s: C.Scheme, v: WitnessInputs, record: WitnessRecord, a: WitnessAttestation) {
    && a.witnessId == record.id && a.witnessRevision == record.revision
    && a.checkpointCorpusRef == v.corpus.predecessorRef
    && a.checkpointLogRef == v.corpus.corpus.logRef
    && a.expectedHead == s.Reference(v.head)
    && v.head.publishedAt <= a.observedAt
    && a.receivedAt <= v.evaluatedAt
  }

  ghost predicate ValidWitnesses(s: C.Scheme, v: WitnessInputs) {
    && WitnessBindings(v)
    && References(v.attestations) == v.corpus.attestationRefs
    && |v.attestations| == |v.registry.witnesses|
    && s.Reference(v.head) == v.corpus.corpus.headRef
    && forall i :: 0 <= i < |v.attestations| ==> Speaks(s, v, v.registry.witnesses[i], v.attestations[i])
  }

  function Observe(policy: WitnessPolicy, a: WitnessAttestation): Observation {
    Observation(
      a.witnessId, a.reference, a.kind, a.expectedHead, a.observedHead,
      if policy.abstainOnConflictingHead && a.kind == ConflictingHead then
        ["adjudicator-checkpoint-witness-conflicting-head:" + a.witnessId]
      else [])
  }

  function Observations(policy: WitnessPolicy, attestations: seq<WitnessAttestation>): (os: seq<Observation>)
    ensures |os| == |attestations|
    ensures forall i :: 0 <= i < |os| ==> os[i] == Observe(policy, attestations[i])
  {
    seq(|attestations|, i requires 0 <= i < |attestations| => Observe(policy, attestations[i]))
  }

  function WitnessOutcome(observations: seq<Observation>): Outcome {
    if exists o :: o in observations && o.reasons != [] then Abstain else Execute
  }

  function WitnessDecisionOf(v: WitnessInputs): WitnessDecision {
    var observations := Observations(v.policy, v.attestations);
    WitnessDecision(
      v.plan.experimentId, v.plan.experimentVersion, v.plan.corpusRef, v.corpus.registryRef, v.corpus.policyRef,
      v.corpus.corpus.headRef, WitnessOutcome(observations), observations, v.evaluatedAt)
  }

  /** The decision report's own constructor. */
  ghost predicate DecisionConstructed(d: WitnessDecision) {
    && d.observations != []
    && (forall i, j :: 0 <= i < j < |d.observations| ==> d.observations[i].witnessId != d.observations[j].witnessId)
    && d.outcome == WitnessOutcome(d.observations)
  }

  /** What each refusal says of the inputs.  No registered-witness population has an unknown witness. */
  ghost predicate Explains(s: C.Scheme, v: WitnessInputs, r: Refusal) {
    match r
    case BindingsDiffer => !WitnessBindings(v)
    case PopulationDiffers =>
      References(v.attestations) != v.corpus.attestationRefs || |v.attestations| != |v.registry.witnesses|
    case HeadDiffers => s.Reference(v.head) != v.corpus.corpus.headRef
    case _ => |v.attestations| == |v.registry.witnesses| && WitnessFault(s, v, r)
  }

  ghost predicate WitnessFault(s: C.Scheme, v: WitnessInputs, r: Refusal)
    requires |v.attestations| == |v.registry.witnesses|
  {
    if r == RepeatedWitness then
      exists i, j :: 0 <= i < j < |v.attestations| && v.attestations[i].witnessId == v.attestations[j].witnessId
    else
      exists k :: 0 <= k < |v.attestations| && FaultOf(s, v, v.registry.witnesses[k], v.attestations[k], r)
  }

  predicate FaultOf(s: C.Scheme, v: WitnessInputs, record: WitnessRecord, a: WitnessAttestation, r: Refusal) {
    match r
    case OrderDiffers => a.witnessId != record.id
    case RevisionDiffers => a.witnessId == record.id && a.witnessRevision != record.revision
    case CorpusDiffers => a.checkpointCorpusRef != v.corpus.predecessorRef
    case LogDiffers => a.checkpointLogRef != v.corpus.corpus.logRef
    case ExpectedHeadDiffers => a.expectedHead != s.Reference(v.head)
    case ObservedBeforePublication => a.observedAt < v.head.publishedAt
    case ReceivedAfterEvaluation => a.receivedAt > v.evaluatedAt
    case _ => false
  }

  /** Why one attestation is refused, in the order the validator asks, once its ID is the expected one. */
  function AttestationRefusal(s: C.Scheme, v: WitnessInputs, a: WitnessAttestation): Option<Refusal> {
    var found := FirstWitness(v.registry.witnesses, a.witnessId);
    if found.None? then Some(UnknownWitness)
    else if found.value.revision != a.witnessRevision then Some(RevisionDiffers)
    else if a.checkpointCorpusRef != v.corpus.predecessorRef then Some(CorpusDiffers)
    else if a.checkpointLogRef != v.corpus.corpus.logRef then Some(LogDiffers)
    else if a.expectedHead != s.Reference(v.head) then Some(ExpectedHeadDiffers)
    else if a.observedAt < v.head.publishedAt then Some(ObservedBeforePublication)
    else if a.receivedAt > v.evaluatedAt then Some(ReceivedAfterEvaluation)
    else None
  }

  /** The lookup finds the witness at the attestation's own position, so it can never come back empty. */
  lemma LookupIsPositional(s: C.Scheme, v: WitnessInputs, i: nat)
    requires v.registry.Constructed() && i < |v.registry.witnesses| && i < |v.attestations|
    requires v.attestations[i].witnessId == v.registry.witnesses[i].id
    ensures FirstWitness(v.registry.witnesses, v.attestations[i].witnessId) == Some(v.registry.witnesses[i])
    ensures AttestationRefusal(s, v, v.attestations[i]).Some? ==>
              FaultOf(s, v, v.registry.witnesses[i], v.attestations[i], AttestationRefusal(s, v, v.attestations[i]).value)
    ensures AttestationRefusal(s, v, v.attestations[i]).None? <==>
            Speaks(s, v, v.registry.witnesses[i], v.attestations[i])
  {
    var found := FirstWitness(v.registry.witnesses, v.attestations[i].witnessId);
    assert v.registry.witnesses[i].id == v.attestations[i].witnessId;
    var j :| 0 <= j < |v.registry.witnesses| && v.registry.witnesses[j] == found.value;
    assert v.registry.Ids()[j] == v.registry.Ids()[i];
  }

  ghost predicate SpeakUpTo(s: C.Scheme, v: WitnessInputs, k: nat)
    requires k <= |v.attestations| && k <= |v.registry.witnesses|
  {
    forall i :: 0 <= i < k ==> Speaks(s, v, v.registry.witnesses[i], v.attestations[i])
  }

  ghost predicate SeenBefore(v: WitnessInputs, seen: set<string>, k: nat)
    requires k <= |v.attestations|
  {
    forall id :: id in seen <==> exists i :: 0 <= i < k && v.attestations[i].witnessId == id
  }

  lemma SeenStep(v: WitnessInputs, seen: set<string>, k: nat)
    requires k < |v.attestations| && SeenBefore(v, seen, k)
    ensures SeenBefore(v, seen + {v.attestations[k].witnessId}, k + 1)
  {
  }

  /** One attestation against the witnesses seen so far and the one required at its position. */
  method CheckWitness(s: C.Scheme, v: WitnessInputs, seen: set<string>, k: nat) returns (refusal: Option<Refusal>)
    requires v.registry.Constructed() && |v.attestations| == |v.registry.witnesses| && v.policy.requiredIds == v.registry.Ids()
    requires k < |v.attestations| && SeenBefore(v, seen, k)
    ensures refusal.None? ==> Speaks(s, v, v.registry.witnesses[k], v.attestations[k])
    ensures refusal.Some? ==> !SpeakUpTo(s, v, |v.attestations|) && WitnessFault(s, v, refusal.value)
  {
    var a := v.attestations[k];
    if a.witnessId in seen {
      RepeatIsOutOfOrder(s, v, seen, k);
      return Some(RepeatedWitness);
    }
    if a.witnessId != v.policy.requiredIds[k] {
      assert !Speaks(s, v, v.registry.witnesses[k], a) && FaultOf(s, v, v.registry.witnesses[k], a, OrderDiffers);
      return Some(OrderDiffers);
    }
    LookupIsPositional(s, v, k);
    refusal := AttestationRefusal(s, v, a);
  }

  /** The loop over required witnesses and attestations, side by side. */
  method ObserveWitnesses(s: C.Scheme, v: WitnessInputs) returns (observations: seq<Observation>, refusal: Option<Refusal>)
    requires v.registry.Constructed() && |v.attestations| == |v.registry.witnesses| && v.policy.requiredIds == v.registry.Ids()
    ensures refusal.None? <==> SpeakUpTo(s, v, |v.attestations|)
    ensures refusal.None? ==> observations == Observations(v.policy, v.attestations)
    ensures refusal.Some? ==> WitnessFault(s, v, refusal.value)
  {
    observations := [];
    var seen: set<string> := {};
    for k := 0 to |v.attestations|
      invariant SeenBefore(v, seen, k)
      invariant |observations| == k && forall i :: 0 <= i < k ==> observations[i] == Observe(v.policy, v.attestations[i])
      invariant SpeakUpTo(s, v, k)
    {
      refusal := CheckWitness(s, v, seen, k);
      if refusal.Some? {
        return;
      }
      SeenStep(v, seen, k);
      seen := seen + {v.attestations[k].witnessId};
      observations := observations + [Observe(v.policy, v.attestations[k])];
    }
    refusal := None;
  }

  lemma RepeatIsOutOfOrder(s: C.Scheme, v: WitnessInputs, seen: set<string>, k: nat)
    requires v.registry.Constructed() && k < |v.attestations| && |v.attestations| == |v.registry.witnesses|
    requires SeenBefore(v, seen, k) && v.attestations[k].witnessId in seen
    ensures !SpeakUpTo(s, v, |v.attestations|) && WitnessFault(s, v, RepeatedWitness)
  {
    var i :| 0 <= i < k && v.attestations[i].witnessId == v.attestations[k].witnessId;
    assert v.registry.Ids()[i] != v.registry.Ids()[k];
    assert !Speaks(s, v, v.registry.witnesses[i], v.attestations[i]) || !Speaks(s, v, v.registry.witnesses[k], v.attestations[k]);
  }

  /**
  Accepts exactly the valid witness populations, with a decision its own constructor accepts, and
  refuses for a reason that is true; an unknown witness never supplies one.
  */
  method ValidateWitnesses(s: C.Scheme, v: WitnessInputs) returns (verdict: WitnessVerdict)
    requires WitnessInputsConstructed(v)
    ensures verdict.Decided? <==> ValidWitnesses(s, v)
    ensures verdict.Decided? ==> verdict.decision == WitnessDecisionOf(v) && DecisionConstructed(verdict.decision)
    ensures verdict.Refused? ==> Explains(s, v, verdict.refusal)
  {
    if !WitnessBindings(v) {
      return Refused(BindingsDiffer);
    }
    if References(v.attestations) != v.corpus.attestationRefs || |v.attestations| != |v.policy.requiredIds| {
      return Refused(PopulationDiffers);
    }
    if s.Reference(v.head) != v.corpus.corpus.headRef {
      return Refused(HeadDiffers);
    }
    var observations, refusal := ObserveWitnesses(s, v);
    if refusal.Some? {
      return Refused(refusal.value);
    }
    WitnessDecisionIsConstructed(s, v);
    return Decided(WitnessDecision(
      v.plan.experimentId, v.plan.experimentVersion, v.corpus.corpus.reference, v.registry.reference,
      v.policy.reference, s.Reference(v.head), WitnessOutcome(observations), observations, v.evaluatedAt));
  }

  lemma SpeakersDiffer(s: C.Scheme, v: WitnessInputs, i: nat, j: nat)
    requires v.registry.Constructed() && ValidWitnesses(s, v) && i < j < |v.attestations|
    ensures v.attestations[i].witnessId != v.attestations[j].witnessId
  {
    assert Speaks(s, v, v.registry.witnesses[i], v.attestations[i]);
    assert Speaks(s, v, v.registry.witnesses[j], v.attestations[j]);
    assert v.registry.Ids()[i] != v.registry.Ids()[j];
  }

  lemma WitnessDecisionIsConstructed(s: C.Scheme, v: WitnessInputs)
    requires WitnessInputsConstructed(v) && ValidWitnesses(s, v)
    ensures DecisionConstructed(WitnessDecisionOf(v))
  {
    var os := WitnessDecisionOf(v).observations;
    forall i, j | 0 <= i < j < |os| ensures os[i].witnessId != os[j].witnessId {
      SpeakersDiffer(s, v, i, j);
    }
  }

  // ----- forks -----

  function Forks(observations: seq<Observation>): seq<ForkEvidence> {
    if observations == [] then []
    else
      var o := Last(observations);
      var before := Forks(Front(observations));
      if o.kind == ConflictingHead then
        before + [ForkEvidence(o.witnessId, o.attestationRef, o.expectedHead, o.observedHead)]
      else before
  }

  /** Somebody saw a head other than the declared one. */
  ghost predicate Conflicted(s: C.Scheme, v: WitnessInputs) {
    exists i :: 0 <= i < |v.attestations| && v.attestations[i].observedHead != s.Reference(v.head)
  }

  lemma {:induction false} ForksEmpty(observations: seq<Observation>)
    ensures Forks(observations) == [] <==> forall o :: o in observations ==> o.kind == MatchesHead
  {
    if observations != [] {
      ForksEmpty(Front(observations));
      assert observations == Front(observations) + [Last(observations)];
    }
  }

  /** Evidence is kept for exactly the conflicting observations, with their own references. */
  lemma {:induction false} ForksAreTheConflicts(observations: seq<Observation>, f: ForkEvidence)
    ensures f in Forks(observations) <==>
            exists i :: 0 <= i < |observations| && observations[i].kind == ConflictingHead
                        && f == ForkEvidence(observations[i].witnessId, observations[i].attestationRef,
                                             observations[i].expectedHead, observations[i].observedHead)
  {
    if observations != [] {
      var front := Front(observations);
      ForksAreTheConflicts(front, f);
      assert forall i :: 0 <= i < |front| ==> front[i] == observations[i];
    }
  }

  /** The evidence of a conflicting observation stands right behind that of the earlier ones. */
  lemma {:induction false} ForksKeepTheOrder(observations: seq<Observation>, i: nat)
    requires i < |observations|
    ensures Forks(observations[..i]) <= Forks(observations)
    ensures observations[i].kind == ConflictingHead ==>
              var k := |Forks(observations[..i])|;
              && k < |Forks(observations)| && Forks(observations)[k].witnessId == observations[i].witnessId
              && Forks(observations)[k].attestationRef == observations[i].attestationRef
  {
    var front := Front(observations);
    if i < |front| {
      ForksKeepTheOrder(front, i);
      assert front[..i] == observations[..i];
    } else {
      assert observations[..i] == front;
    }
  }

  /** The witness gate abstains exactly when one witness, however many agree, saw another head. */
  lemma OneConflictAbstains(s: C.Scheme, v: WitnessInputs)
    requires WitnessInputsConstructed(v) && ValidWitnesses(s, v)
    ensures WitnessDecisionOf(v).outcome == Abstain <==> Conflicted(s, v)
    ensures Forks(WitnessDecisionOf(v).observations) == [] <==> !Conflicted(s, v)
  {
    var os := WitnessDecisionOf(v).observations;
    ForksEmpty(os);
    forall i | 0 <= i < |os|
      ensures (os[i].reasons != [] <==> v.attestations[i].observedHead != s.Reference(v.head))
              && (os[i].kind == MatchesHead <==> os[i].reasons == []) && os[i] in os
    {
      assert Speaks(s, v, v.registry.witnesses[i], v.attestations[i]);
    }
    if Conflicted(s, v) {
      var i :| 0 <= i < |v.attestations| && v.attestations[i].observedHead != s.Reference(v.head);
      assert os[i].reasons != [] && os[i] in os;
    }
  }

  /** One observation is one attestation, whose head is compared with the declared one. */
  predicate Observes(head: Ref, a: WitnessAttestation, o: Observation) {
    && o.witnessId == a.witnessId && o.attestationRef == a.reference
    && o.expectedHead == head && o.observedHead == a.observedHead
    && (o.kind == ConflictingHead <==> a.observedHead != head)
    && (a.observedHead == head ==> o.reasons == [])
    && (a.observedHead != head ==> o.reasons == ["adjudicator-checkpoint-witness-conflicting-head:" + a.witnessId])
  }

  /**
  The decision has one observation per registered witness, in registry order, each read off that
  witness's attestation, and names the records the attestations were validated against, all in force.
  */
  lemma DecisionReadsTheAttestations(s: C.Scheme, v: WitnessInputs)
    requires WitnessInputsConstructed(v) && ValidWitnesses(s, v)
    ensures var d := WitnessDecisionOf(v);
            && |d.observations| == |v.attestations| == |v.registry.witnesses|
            && (forall i :: 0 <= i < |d.observations| ==>
                  && Observes(s.Reference(v.head), v.attestations[i], d.observations[i])
                  && d.observations[i].witnessId == v.registry.witnesses[i].id)
            && d.experimentId == v.plan.experimentId && d.experimentVersion == v.plan.experimentVersion
            && d.corpusRef == v.corpus.corpus.reference && d.registryRef == v.registry.reference
            && d.policyRef == v.policy.reference && d.headRef == s.Reference(v.head) && d.evaluatedAt == v.evaluatedAt
    ensures v.plan.status == Frozen && v.registry.status == Accepted && v.policy.status == Accepted
    ensures v.policy.registryRef == v.corpus.registryRef && v.plan.contentIds == v.corpus.corpus.contentIds
  {
    var d := WitnessDecisionOf(v);
    forall i | 0 <= i < |d.observations|
      ensures Observes(s.Reference(v.head), v.attestations[i], d.observations[i])
      ensures d.observations[i].witnessId == v.registry.witnesses[i].id
    {
      assert Speaks(s, v, v.registry.witnesses[i], v.attestations[i]);
    }
  }

  // ----- adjudication -----

  datatype AdjudicationPolicy = AdjudicationPolicy(
    reference: VersionedRef, status: Lifecycle, adjudicatorRegistryRef: VersionedRef, requiredIds: seq<string>,
    resolutionMustSelectDeclaredHead: bool)
  {
    /** The constructor also forces the abstention flags and forbids votes; no check reads those. */
    ghost predicate Constructed() {
      requiredIds != [] && Distinct(requiredIds) && resolutionMustSelectDeclaredHead
    }
  }

  datatype AdjudicationCorpus = AdjudicationCorpus(
    corpus: WitnessCorpus, predecessorRef: VersionedRef, adjudicatorRegistryRef: VersionedRef,
    adjudicationPolicyRef: VersionedRef, adjudicationRef: Ref)

  datatype AdjudicationInputs = AdjudicationInputs(
    plan: Plan, corpus: AdjudicationCorpus, witnessRegistry: WitnessRegistry, witnessPolicy: WitnessPolicy,
    adjudicators: AdjudicatorRegistry, policy: AdjudicationPolicy, decision: WitnessDecision,
    adjudication: Adjudication, evaluatedAt: int)

  datatype AdjudicationDecision = AdjudicationDecision(
    experimentId: string, experimentVersion: string, corpusRef: VersionedRef, adjudicatorRegistryRef: VersionedRef,
    policyRef: VersionedRef, adjudicationRef: Ref, witnessOutcome: Outcome, resolution: ResolutionStatus,
    outcome: Outcome, forkEvidence: seq<ForkEvidence>, preservedDissent: seq<Dissent>, rationale: string,
    reasons: seq<string>, evaluatedAt: int)

  datatype AdjudicationRefusal =
    | AdjudicationBindingsDiffer | HeadDiffersFromDecision | DecidedAfterEvaluation | ForkEvidenceDiffers
    | MatchingNeedsNotRequired | ConflictNeedsState | AdjudicatorMissing | AdjudicatorUnknown
    | AdjudicatorRevisionDiffers | UndeclaredHeadSelected

  datatype AdjudicationVerdict = Adjudicated(decision: AdjudicationDecision) | NotAdjudicated(refusal: AdjudicationRefusal)

  predicate AdjudicationBindings(v: AdjudicationInputs) {
    && v.plan.status == Frozen
    && v.plan.corpusRef == v.corpus.corpus.corpus.reference
    && v.plan.contentIds == v.corpus.corpus.corpus.contentIds
    && v.corpus.adjudicatorRegistryRef == v.adjudicators.reference
    && v.corpus.adjudicationPolicyRef == v.policy.reference
    && v.corpus.adjudicationRef == v.adjudication.reference
    && v.adjudicators.status == Accepted
    && v.policy.status == Accepted
    && v.policy.adjudicatorRegistryRef == v.adjudicators.reference
    && v.policy.requiredIds == v.adjudicators.Ids()
    && v.adjudication.witnessPredecessorRef == v.corpus.predecessorRef
    && v.adjudication.witnessRegistryRef == v.witnessRegistry.reference
    && v.adjudication.witnessPolicyRef == v.witnessPolicy.reference
    && v.adjudication.adjudicatorRegistryRef == v.adjudicators.reference
    && v.adjudication.adjudicationPolicyRef == v.policy.reference
  }

  function FirstAdjudicator(records: seq<Adjudicator>, id: string): (found: Option<Adjudicator>)
    ensures found.Some? ==> found.value in records && found.value.id == id
    ensures found.None? ==> forall i :: 0 <= i < |records| ==> records[i].id != id
  {
    if records == [] then None
    else if records[0].id == id then Some(records[0])
    else FirstAdjudicator(records[1..], id)
  }

  /** A registered adjudicator of this exact identity revision decided. */
  ghost predicate Authorized(v: AdjudicationInputs) {
    && v.adjudication.adjudicatorId.Some?
    && exists r :: r in v.adjudicators.adjudicators && r.id == v.adjudication.adjudicatorId.value
                   && Some(r.revision) == v.adjudication.adjudicatorRevision
  }

  /** What is left to require of constructed records, without the checks that cannot fail. */
  ghost predicate ValidAdjudication(v: AdjudicationInputs) {
    && AdjudicationBindings(v)
    && v.adjudication.checkpointHead == v.decision.headRef
    && v.adjudication.decidedAt <= v.evaluatedAt
    && v.adjudication.forkEvidence == Forks(v.decision.observations)
    && (v.adjudication.status in {Resolved, Unresolved} ==> Authorized(v))
    && (v.adjudication.status == Resolved ==> v.adjudication.selectedHead == Some(v.decision.headRef))
  }

  function ResolutionName(status: ResolutionStatus): string {
    match status
    case NotRequired => "not_required"
    case Pending => "pending"
    case Resolved => "resolved"
    case Unresolved => "unresolved"
  }

  function AdjudicationOutcome(witnessOutcome: Outcome, resolution: ResolutionStatus): Outcome {
    if witnessOutcome == Execute || resolution == Resolved then Execute else Abstain
  }

  function AdjudicationDecisionOf(v: AdjudicationInputs): AdjudicationDecision {
    var outcome := AdjudicationOutcome(v.decision.outcome, v.adjudication.status);
    AdjudicationDecision(
      v.plan.experimentId, v.plan.experimentVersion, v.plan.corpusRef, v.corpus.adjudicatorRegistryRef,
      v.corpus.adjudicationPolicyRef, v.corpus.adjudicationRef, v.decision.outcome, v.adjudication.status, outcome,
      Forks(v.decision.observations), v.adjudication.preservedDissent, v.adjudication.rationale,
      if outcome == Execute then []
      else ["adjudicator-checkpoint-witness-conflict-adjudication:" + ResolutionName(v.adjudication.status)],
      v.evaluatedAt)
  }

  ghost predicate AdjudicationDecisionConstructed(d: AdjudicationDecision) {
    && d.outcome == AdjudicationOutcome(d.witnessOutcome, d.resolution)
    && (d.reasons != [] <==> d.outcome == Abstain)
  }

  /** The witness decision handed over came from the witness gate under a constructed policy. */
  ghost predicate FromWitnessGate(d: WitnessDecision) {
    d.outcome == Execute <==> Forks(d.observations) == []
  }

  ghost predicate AdjudicationInputsConstructed(v: AdjudicationInputs) {
    && v.adjudicators.Constructed() && v.policy.Constructed() && v.adjudication.Constructed()
    && FromWitnessGate(v.decision)
  }

  /** What each refusal says of constructed inputs. */
  ghost predicate AdjudicationExplains(v: AdjudicationInputs, r: AdjudicationRefusal) {
    match r
    case AdjudicationBindingsDiffer => !AdjudicationBindings(v)
    case HeadDiffersFromDecision => v.adjudication.checkpointHead != v.decision.headRef
    case DecidedAfterEvaluation => v.adjudication.decidedAt > v.evaluatedAt
    case ForkEvidenceDiffers => v.adjudication.forkEvidence != Forks(v.decision.observations)
    case AdjudicatorUnknown =>
      && v.adjudication.status in {Resolved, Unresolved} && v.adjudication.adjudicatorId.Some?
      && forall r :: r in v.adjudicators.adjudicators ==> r.id != v.adjudication.adjudicatorId.value
    case AdjudicatorRevisionDiffers =>
      && v.adjudication.status in {Resolved, Unresolved} && v.adjudication.adjudicatorId.Some?
      && exists r :: r in v.adjudicators.adjudicators && r.id == v.adjudication.adjudicatorId.value
                     && Some(r.revision) != v.adjudication.adjudicatorRevision
    case UndeclaredHeadSelected =>
      v.adjudication.status == Resolved && v.adjudication.selectedHead != Some(v.decision.headRef)
    case _ => false
  }

  lemma LookupFindsTheAdjudicator(v: AdjudicationInputs)
    requires v.adjudicators.Constructed() && v.adjudication.adjudicatorId.Some?
    ensures var found := FirstAdjudicator(v.adjudicators.adjudicators, v.adjudication.adjudicatorId.value);
            Authorized(v) <==> found.Some? && Some(found.value.revision) == v.adjudication.adjudicatorRevision
  {
    var rs := v.adjudicators.adjudicators;
    var found := FirstAdjudicator(rs, v.adjudication.adjudicatorId.value);
    if Authorized(v) {
      var r :| r in rs && r.id == v.adjudication.adjudicatorId.value && Some(r.revision) == v.adjudication.adjudicatorRevision;
      var i :| 0 <= i < |rs| && rs[i] == r;
      assert rs[i].id == v.adjudication.adjudicatorId.value;
      var j :| 0 <= j < |rs| && rs[j] == found.value;
      assert v.adjudicators.Ids()[i] == v.adjudicators.Ids()[j];
    }
  }

  /**
  Accepts exactly the valid adjudications.  Three of its checks repeat what the records'
  constructors and the witness gate already force, and are never the reason for a refusal.
  */
  method ValidateAdjudication(v: AdjudicationInputs) returns (verdict: AdjudicationVerdict)
    requires AdjudicationInputsConstructed(v)
    ensures verdict.Adjudicated? <==> ValidAdjudication(v)
    ensures verdict.Adjudicated? ==>
              verdict.decision == AdjudicationDecisionOf(v) && AdjudicationDecisionConstructed(verdict.decision)
    ensures verdict.NotAdjudicated? ==> AdjudicationExplains(v, verdict.refusal)
  {
    if !AdjudicationBindings(v) {
      return NotAdjudicated(AdjudicationBindingsDiffer);
    }
    var record := v.adjudication;
    if record.checkpointHead != v.decision.headRef {
      return NotAdjudicated(HeadDiffersFromDecision);
    }
    if record.decidedAt > v.evaluatedAt {
      return NotAdjudicated(DecidedAfterEvaluation);
    }
    var conflicts := Forks(v.decision.observations);
    if conflicts != record.forkEvidence {
      return NotAdjudicated(ForkEvidenceDiffers);
    }
    if conflicts == [] {
      if v.decision.outcome != Execute || record.status != NotRequired {
        return NotAdjudicated(MatchingNeedsNotRequired);
      }
    } else if v.decision.outcome != Abstain || record.status == NotRequired {
      return NotAdjudicated(ConflictNeedsState);
    }
    if record.status in {Resolved, Unresolved} {
      if record.adjudicatorId.None? {
        return NotAdjudicated(AdjudicatorMissing);
      }
      LookupFindsTheAdjudicator(v);
      var found := FirstAdjudicator(v.adjudicators.adjudicators, record.adjudicatorId.value);
      if found.None? {
        return NotAdjudicated(AdjudicatorUnknown);
      }
      if Some(found.value.revision) != record.adjudicatorRevision {
        return NotAdjudicated(AdjudicatorRevisionDiffers);
      }
    }
    if record.status == Resolved && v.policy.resolutionMustSelectDeclaredHead
       && record.selectedHead != Some(v.decision.headRef) {
      return NotAdjudicated(UndeclaredHeadSelected);
    }
    var outcome, reasons := Execute, [];
    if v.decision.outcome != Execute && record.status != Resolved {
      outcome := Abstain;
      reasons := ["adjudicator-checkpoint-witness-conflict-adjudication:" + ResolutionName(record.status)];
    }
    return Adjudicated(AdjudicationDecision(
      v.plan.experimentId, v.plan.experimentVersion, v.corpus.corpus.corpus.reference, v.adjudicators.reference,
      v.policy.reference, record.reference, v.decision.outcome, record.status, outcome, record.forkEvidence,
      record.preservedDissent, record.rationale, reasons, v.evaluatedAt));
  }

  // ----- end to end -----

  /** All three gates accepted one experiment: its checkpoint log, its witnesses, its adjudication. */
  ghost predicate Gated(s: C.Scheme, c: C.Inputs, w: WitnessInputs, g: AdjudicationInputs) {
    && C.InputsConstructed(s, c) && C.ValidLog(s, c)
    && w.corpus.corpus == c.corpus && w.head == Last(c.checkpoints)
    && WitnessInputsConstructed(w) && ValidWitnesses(s, w)
    && g.decision == WitnessDecisionOf(w)
    && AdjudicationInputsConstructed(g) && ValidAdjudication(g)
  }

  /** The witness gate hands adjudication what it needs, so `Gated` asks nothing more of the decision. */
  lemma WitnessGateFeedsAdjudication(s: C.Scheme, w: WitnessInputs)
    requires WitnessInputsConstructed(w) && ValidWitnesses(s, w)
    ensures FromWitnessGate(WitnessDecisionOf(w))
  {
    OneConflictAbstains(s, w);
  }

  /**
  Execution is reached exactly when no witness saw another head or an authorized adjudicator
  resolved the conflict; a resolution then selects the head of the validated chain, whose events
  are the whole ledger, and keeps the dissent of every witness that saw another head.
  */
  lemma ExecutionRestsOnTheDeclaredHead(s: C.Scheme, c: C.Inputs, w: WitnessInputs, g: AdjudicationInputs)
    requires Gated(s, c, w, g)
    ensures AdjudicationDecisionOf(g).outcome == Execute <==> !Conflicted(s, w) || g.adjudication.status == Resolved
    ensures Conflicted(s, w) <==> g.adjudication.status != NotRequired
    ensures AdjudicationDecisionOf(g).outcome == Execute && Conflicted(s, w) ==>
              && Authorized(g)
              && g.adjudication.selectedHead == Some(s.Reference(Last(c.checkpoints)))
              && Last(c.checkpoints).eventRefs == c.ledger.eventRefs
              && forall i: nat :: Dissents(s, w, i) ==>
                   exists d :: d in AdjudicationDecisionOf(g).preservedDissent && DissentOf(g, w.attestations[i], d)
  {
    OneConflictAbstains(s, w);
    if AdjudicationDecisionOf(g).outcome == Execute && Conflicted(s, w) {
      forall i: nat | Dissents(s, w, i)
        ensures exists d :: d in AdjudicationDecisionOf(g).preservedDissent && DissentOf(g, w.attestations[i], d)
      {
        DecisionKeepsEveryDissent(s, w, g, i);
      }
    }
  }

  /** This witness saw another head than the declared one. */
  predicate Dissents(s: C.Scheme, w: WitnessInputs, i: nat) {
    i < |w.attestations| && w.attestations[i].observedHead != s.Reference(w.head)
  }

  /** The fork evidence of one attestation. */
  function ForkOf(s: C.Scheme, w: WitnessInputs, a: WitnessAttestation): ForkEvidence {
    ForkEvidence(a.witnessId, a.reference, s.Reference(w.head), a.observedHead)
  }

  /** The dissent of one attestation, with a note the record holds for it. */
  ghost predicate DissentOf(g: AdjudicationInputs, a: WitnessAttestation, d: Dissent) {
    && d.witnessId == a.witnessId && d.attestationRef == a.reference && d.observedHead == a.observedHead
    && exists k :: 0 <= k < |g.adjudication.preservedDissent|
                   && g.adjudication.preservedDissent[k].witnessId == a.witnessId
                   && g.adjudication.preservedDissent[k].note == d.note
  }

  /** The decision's fork evidence is that of exactly the witnesses that saw another head. */
  lemma DecisionKeepsEveryFork(s: C.Scheme, w: WitnessInputs, g: AdjudicationInputs, f: ForkEvidence)
    requires WitnessInputsConstructed(w) && ValidWitnesses(s, w) && g.decision == WitnessDecisionOf(w)
    ensures f in AdjudicationDecisionOf(g).forkEvidence <==>
            exists i: nat :: Dissents(s, w, i) && f == ForkOf(s, w, w.attestations[i])
  {
    DecisionReadsTheAttestations(s, w);
    var os := g.decision.observations;
    ForksAreTheConflicts(os, f);
    forall i: nat | i < |os|
      ensures os[i].kind == ConflictingHead <==> Dissents(s, w, i)
      ensures ForkEvidence(os[i].witnessId, os[i].attestationRef, os[i].expectedHead, os[i].observedHead)
              == ForkOf(s, w, w.attestations[i])
    {
      assert Observes(s.Reference(w.head), w.attestations[i], os[i]);
    }
  }

  /**
  Once an adjudicator has decided, every witness that saw another head has its dissent in the
  decision, with its attestation, the head it saw and the recorded note.
  */
  lemma DecisionKeepsEveryDissent(s: C.Scheme, w: WitnessInputs, g: AdjudicationInputs, i: nat)
    requires WitnessInputsConstructed(w) && ValidWitnesses(s, w) && g.decision == WitnessDecisionOf(w)
    requires g.adjudication.Constructed() && ValidAdjudication(g) && g.adjudication.status in {Resolved, Unresolved}
    requires Dissents(s, w, i)
    ensures exists d :: d in AdjudicationDecisionOf(g).preservedDissent && DissentOf(g, w.attestations[i], d)
  {
    var a, dissent := w.attestations[i], AdjudicationDecisionOf(g).preservedDissent;
    DecisionKeepsEveryFork(s, w, g, ForkOf(s, w, a));
    var forks := g.adjudication.forkEvidence;
    var k :| 0 <= k < |forks| && forks[k] == ForkOf(s, w, a);
    assert dissent[k] in dissent && DissentOf(g, a, dissent[k]);
  }

  /** The decision holds no other dissent, and none at all while nobody has decided. */
  lemma DecisionInventsNoDissent(s: C.Scheme, w: WitnessInputs, g: AdjudicationInputs, d: Dissent)
    requires WitnessInputsConstructed(w) && ValidWitnesses(s, w) && g.decision == WitnessDecisionOf(w)
    requires g.adjudication.Constructed() && ValidAdjudication(g)
    requires d in AdjudicationDecisionOf(g).preservedDissent
    ensures g.adjudication.status in {Resolved, Unresolved}
    ensures exists i: nat :: Dissents(s, w, i) && DissentOf(g, w.attestations[i], d)
  {
    var dissent, forks := g.adjudication.preservedDissent, g.adjudication.forkEvidence;
    var k :| 0 <= k < |dissent| && dissent[k] == d;
    DecisionKeepsEveryFork(s, w, g, forks[k]);
    assert forks[k] in forks;
    var i: nat :| Dissents(s, w, i) && forks[k] == ForkOf(s, w, w.attestations[i]);
    assert DissentOf(g, w.attestations[i], d);
  }

  /**
  What else the decision says: whether the witnesses agreed, how the conflict stands, and why there is
  an abstention.
  */
  lemma DecisionReadsTheAdjudication(s: C.Scheme, w: WitnessInputs, g: AdjudicationInputs)
    requires WitnessInputsConstructed(w) && ValidWitnesses(s, w) && g.decision == WitnessDecisionOf(w)
    requires g.adjudication.Constructed() && ValidAdjudication(g)
    ensures var d := AdjudicationDecisionOf(g);
            && (d.witnessOutcome == Abstain <==> Conflicted(s, w))
            && d.resolution == g.adjudication.status && (d.resolution == NotRequired <==> !Conflicted(s, w))
            && (d.outcome == Execute <==> d.resolution in {NotRequired, Resolved})
            && (d.outcome == Execute ==> d.reasons == [])
            && (d.resolution == Pending ==>
                  d.reasons == ["adjudicator-checkpoint-witness-conflict-adjudication:pending"])
            && (d.resolution == Unresolved ==>
                  d.reasons == ["adjudicator-checkpoint-witness-conflict-adjudication:unresolved"])
            && d.rationale == g.adjudication.rationale
  {
    OneConflictAbstains(s, w);
    var prefix := "adjudicator-checkpoint-witness-conflict-adjudication:";
    assert prefix + "pending" == "adjudicator-checkpoint-witness-conflict-adjudication:pending";
    assert prefix + "unresolved" == "adjudicator-checkpoint-witness-conflict-adjudication:unresolved";
  }

  /**
  Which records were adjudicated: those the decision names, all in force, and the very ones the
  adjudication record itself names.
  */
  lemma AdjudicationNamesItsRecords(g: AdjudicationInputs)
    requires ValidAdjudication(g)
    ensures var d := AdjudicationDecisionOf(g);
            && d.experimentId == g.plan.experimentId && d.experimentVersion == g.plan.experimentVersion
            && d.corpusRef == g.corpus.corpus.corpus.reference && d.adjudicationRef == g.adjudication.reference
            && d.adjudicatorRegistryRef == g.adjudicators.reference == g.adjudication.adjudicatorRegistryRef
            && d.policyRef == g.policy.reference == g.adjudication.adjudicationPolicyRef
            && d.evaluatedAt == g.evaluatedAt
    ensures g.plan.status == Frozen && g.adjudicators.status == Accepted && g.policy.status == Accepted
    ensures g.plan.contentIds == g.corpus.corpus.corpus.contentIds
    ensures g.policy.adjudicatorRegistryRef == g.adjudication.adjudicatorRegistryRef
    ensures |g.policy.requiredIds| == |g.adjudicators.adjudicators|
    ensures forall i :: 0 <= i < |g.policy.requiredIds| ==> g.policy.requiredIds[i] == g.adjudicators.adjudicators[i].id
    ensures g.adjudication.witnessPredecessorRef == g.corpus.predecessorRef
    ensures g.adjudication.witnessRegistryRef == g.witnessRegistry.reference
    ensures g.adjudication.witnessPolicyRef == g.witnessPolicy.reference
  {
  }

  /** Never by vote: only whether anyone disagreed, and how that was resolved, reaches the outcome. */
  lemma OutcomeIgnoresCounts(
    s: C.Scheme, c: C.Inputs, w: WitnessInputs, g: AdjudicationInputs,
    c': C.Inputs, w': WitnessInputs, g': AdjudicationInputs)
    requires Gated(s, c, w, g) && Gated(s, c', w', g')
    requires Conflicted(s, w) == Conflicted(s, w') && (g.adjudication.status == Resolved) == (g'.adjudication.status == Resolved)
    ensures AdjudicationDecisionOf(g).outcome == AdjudicationDecisionOf(g').outcome
  {
    ExecutionRestsOnTheDeclaredHead(s, c, w, g);
    ExecutionRestsOnTheDeclaredHead(s, c', w', g');
  }

  /**
  Two executions that rest on the same resolved head rest on one history, whatever logs, witnesses
  and adjudicators stood behind them.
  */
  lemma ResolvedHeadFixesTheLedger(
    s: C.Scheme, c: C.Inputs, w: WitnessInputs, g: AdjudicationInputs,
    c': C.Inputs, w': WitnessInputs, g': AdjudicationInputs)
    requires Gated(s, c, w, g) && Gated(s, c', w', g') && s.CollisionFree(c.checkpoints + c'.checkpoints)
    requires g.adjudication.status == Resolved && g.adjudication.selectedHead == g'.adjudication.selectedHead
    ensures c.checkpoints == c'.checkpoints && c.ledger.eventRefs == c'.ledger.eventRefs
  {
    ExecutionRestsOnTheDeclaredHead(s, c, w, g);
    ExecutionRestsOnTheDeclaredHead(s, c', w', g');
    C.SameHeadSameHistory(s, c, c');
  }
}
