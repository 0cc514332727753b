/**
The witness-gated runner: verify the checkpoint log, decide on the witnesses, and only then run
the delegated checkpoint-gated experiment; store every decision before acting on it.

The caller hands over records; attestations and checkpoints are read from the store.  `Script` is
everything one call appends, in order.  The delegated runner is an environment: it appends artifacts
of its own and returns a receipt, or fails.
*/
module WitnessRunner {
  import opened Artifacts
  import opened ArtifactStore
  import opened AppendScript
  import opened Sequences
  import opened Governance
  import opened EventHistory
  import opened RunArtifactIds
  import opened StoredRecords
  import L = RevocationLedger
  import C = CheckpointLog
  import G = WitnessGate

  /** Outcomes the delegated receipt carries and the final manifest copies. */
  datatype Downstream = Downstream(
    credential: Option<Outcome>, reviewerWitness: Option<Outcome>, adjudication: Option<Outcome>,
    reviewerRevocation: Option<Outcome>)

  const NO_DOWNSTREAM: Downstream := Downstream(None, None, None, None)

  datatype DelegatedReceipt = DelegatedReceipt(
    revocationOutcome: Outcome, downstream: Downstream, terminalOutcome: Outcome, finalRef: Ref, completedAt: int)

  /** One delegated call: what it appends and, unless it fails, what it returns. */
  datatype Behaviour = Behaviour(script: seq<Artifact>, receipt: Option<DelegatedReceipt>)

  /** The delegated runner's contract: it returns a final it has stored, and uses no witness-run name. */
  ghost predicate Honest(h: Hashing, b: Behaviour) {
    && WellFormedScript(h, b.script)
    && (forall i :: 0 <= i < |b.script| ==> Foreign(b.script[i].id))
    && (b.receipt.Some? ==> exists i :: 0 <= i < |b.script| && b.script[i].Reference() == b.receipt.value.finalRef)
  }

  datatype CheckpointMarker = CheckpointMarker(
    experimentId: string, experimentVersion: string, corpusRef: VersionedRef, policyRef: VersionedRef,
    logRef: VersionedRef, headRef: Ref)

  datatype WitnessMarker = WitnessMarker(
    experimentId: string, experimentVersion: string, corpusRef: VersionedRef, registryRef: VersionedRef,
    policyRef: VersionedRef, headRef: Ref)

  datatype FinalManifest = FinalManifest(
    finalId: string, run: string, witnessOutcome: Outcome, revocationOutcome: Option<Outcome>, downstream: Downstream,
    terminalOutcome: Outcome, experimentId: string, experimentVersion: string, contentIds: seq<string>,
    corpusRef: Ref, registryRef: Ref, policyRef: Ref, attestationRefs: seq<Ref>, verificationRef: Ref,
    decisionRef: Ref, checkpointFinalRef: Option<Ref>, completedAt: int)

  /** Canonical serialization of the documents this runner writes. */
  datatype Serializer = Serializer(
    h: Hashing, report: C.Report -> Bytes, checkpointMarker: CheckpointMarker -> Bytes,
    decision: G.WitnessDecision -> Bytes, witnessMarker: WitnessMarker -> Bytes, final: FinalManifest -> Bytes)

  // ----- what a call is given, and what it reads -----

  /** The canonical documents of the records a caller hands over. */
  datatype Snapshots = Snapshots(
    corpus: Artifact, registry: Artifact, policy: Artifact, checkpointPolicy: Artifact, log: Artifact)

  datatype Request = Request(
    run: string, windows: seq<string>, plan: Plan, corpus: G.WitnessCorpus, registry: G.WitnessRegistry,
    policy: G.WitnessPolicy, checkpointPolicy: C.CheckpointPolicy, log: C.Log, ledger: L.Ledger,
    verifiedAt: int, evaluatedAt: int, snapshots: Snapshots)

  /** The records come through their constructors and the documents are theirs. */
  ghost predicate RequestConstructed(s: C.Scheme, parser: Parser, q: Request) {
    && parser.ThroughConstructors(s) && C.LogConstructed(q.log) && q.registry.Constructed() && q.policy.Constructed()
    && Distinct(q.plan.contentIds)
    && q.snapshots.corpus.Reference() == Unversioned(q.corpus.corpus.reference)
    && q.snapshots.registry.Reference() == Unversioned(q.registry.reference)
    && q.snapshots.policy.Reference() == Unversioned(q.policy.reference)
    && q.snapshots.checkpointPolicy.Reference() == Unversioned(q.checkpointPolicy.reference)
    && q.snapshots.log.Reference() == Unversioned(q.log.reference)
  }

  datatype Evidence = Evidence(attestations: seq<G.WitnessAttestation>, checkpoints: seq<C.Checkpoint>)

  ghost predicate WitnessesLoad(v: View, parser: Parser, q: Request, attestations: seq<G.WitnessAttestation>) {
    && AllStored(v, [q.snapshots.corpus, q.snapshots.registry, q.snapshots.policy])
    && Read(v, parser.attestation, AttestationRef, q.corpus.attestationRefs, attestations)
  }

  ghost predicate CheckpointsLoad(v: View, s: C.Scheme, parser: Parser, q: Request, checkpoints: seq<C.Checkpoint>) {
    && AllStored(v, [q.snapshots.corpus, q.snapshots.checkpointPolicy, q.snapshots.log])
    && Read(v, parser.checkpoint, s.Reference, q.log.checkpointRefs, checkpoints)
  }

  ghost predicate Loads(v: View, s: C.Scheme, parser: Parser, q: Request, e: Evidence) {
    WitnessesLoad(v, parser, q, e.attestations) && CheckpointsLoad(v, s, parser, q, e.checkpoints)
  }

  /** What a load finds in this store; by `EvidenceIsUnique` there is never a choice. */
  ghost function EvidenceIn(v: View, s: C.Scheme, parser: Parser, q: Request): (found: Option<Evidence>)
    ensures found.Some? ==> Loads(v, s, parser, q, found.value)
    ensures found.None? ==> forall e :: !Loads(v, s, parser, q, e)
  {
    if exists e :: Loads(v, s, parser, q, e) then
      var e :| Loads(v, s, parser, q, e);
      Some(e)
    else None
  }

  lemma EvidenceIsUnique(v: View, s: C.Scheme, parser: Parser, q: Request, e: Evidence)
    requires Loads(v, s, parser, q, e)
    ensures EvidenceIn(v, s, parser, q) == Some(e)
  {
    var f := EvidenceIn(v, s, parser, q).value;
    ReadIsUnique(v, parser.attestation, AttestationRef, q.corpus.attestationRefs, e.attestations, f.attestations);
    ReadIsUnique(v, parser.checkpoint, s.Reference, q.log.checkpointRefs, e.checkpoints, f.checkpoints);
  }

  /** Because no binding ever changes, every later load of the same request reads the same records. */
  lemma LaterLoadsAgree(v: View, u: View, s: C.Scheme, parser: Parser, q: Request)
    requires Extends(v, u) && EvidenceIn(v, s, parser, q).Some?
    ensures EvidenceIn(u, s, parser, q) == EvidenceIn(v, s, parser, q)
  {
    var e := EvidenceIn(v, s, parser, q).value;
    AllStoredGrows(v, u, [q.snapshots.corpus, q.snapshots.registry, q.snapshots.policy]);
    AllStoredGrows(v, u, [q.snapshots.corpus, q.snapshots.checkpointPolicy, q.snapshots.log]);
    ReadStays(v, u, parser.attestation, AttestationRef, q.corpus.attestationRefs, e.attestations);
    ReadStays(v, u, parser.checkpoint, s.Reference, q.log.checkpointRefs, e.checkpoints);
    EvidenceIsUnique(u, s, parser, q, e);
  }

  method LoadWitnesses(store: FileSystemArtifactStore, parser: Parser, q: Request)
    returns (attestations: Option<seq<G.WitnessAttestation>>)
    ensures attestations.Some? ==> WitnessesLoad(store.Readable(), parser, q, attestations.value)
    ensures attestations.None? ==> forall other :: !WitnessesLoad(store.Readable(), parser, q, other)
  {
    var snapshots := LoadAll(store, [q.snapshots.corpus, q.snapshots.registry, q.snapshots.policy]);
    if snapshots.None? {
      return None;
    }
    attestations := LoadRecords(store, parser.attestation, AttestationRef, q.corpus.attestationRefs);
  }

  method LoadCheckpoints(store: FileSystemArtifactStore, s: C.Scheme, parser: Parser, q: Request)
    returns (checkpoints: Option<seq<C.Checkpoint>>)
    ensures checkpoints.Some? ==> CheckpointsLoad(store.Readable(), s, parser, q, checkpoints.value)
    ensures checkpoints.None? ==> forall other :: !CheckpointsLoad(store.Readable(), s, parser, q, other)
  {
    var snapshots := LoadAll(store, [q.snapshots.corpus, q.snapshots.checkpointPolicy, q.snapshots.log]);
    if snapshots.None? {
      return None;
    }
    checkpoints := LoadRecords(store, parser.checkpoint, s.Reference, q.log.checkpointRefs);
  }

  method LoadEvidence(store: FileSystemArtifactStore, s: C.Scheme, parser: Parser, q: Request)
    returns (evidence: Option<Evidence>)
    ensures evidence == EvidenceIn(store.Readable(), s, parser, q)
  {
    var attestations := LoadWitnesses(store, parser, q);
    if attestations.None? {
      return None;
    }
    var checkpoints := LoadCheckpoints(store, s, parser, q);
    if checkpoints.None? {
      return None;
    }
    evidence := Some(Evidence(attestations.value, checkpoints.value));
    EvidenceIsUnique(store.Readable(), s, parser, q, evidence.value);
  }

  /** What a call works on once its evidence is read, with the report and the decision it will come to. */
  datatype RunInputs = RunInputs(
    run: string, windows: seq<string>, log: C.Inputs, witnesses: G.WitnessInputs, snapshots: Snapshots,
    report: C.Report, decision: G.WitnessDecision)

  function Resolve(s: C.Scheme, q: Request, e: Evidence): RunInputs
    requires e.checkpoints != []
  {
    var log := C.Inputs(q.plan, q.corpus.corpus, q.checkpointPolicy, q.log, q.ledger, e.checkpoints, q.verifiedAt);
    var witnesses :=
      G.WitnessInputs(q.plan, q.corpus, q.registry, q.policy, Last(e.checkpoints), e.attestations, q.evaluatedAt);
    RunInputs(q.run, q.windows, log, witnesses, q.snapshots, C.ReportOf(s, log), G.WitnessDecisionOf(witnesses))
  }

  ghost predicate Wired(s: C.Scheme, i: RunInputs) {
    && C.InputsConstructed(s, i.log) && G.WitnessInputsConstructed(i.witnesses)
    && i.witnesses.plan == i.log.plan && i.witnesses.corpus.corpus == i.log.corpus
    && Distinct(i.log.plan.contentIds)
    && i.report == C.ReportOf(s, i.log) && i.decision == G.WitnessDecisionOf(i.witnesses)
  }

  /** What the final verification needs of the evidence. */
  ghost predicate EvidenceHeld(v: View, i: RunInputs) {
    && AllStored(v, [i.snapshots.corpus, i.snapshots.registry, i.snapshots.policy])
    && AllHeld(v, i.witnesses.corpus.attestationRefs) && AllHeld(v, i.log.log.checkpointRefs)
  }

  lemma EvidenceHeldStays(v: View, u: View, i: RunInputs)
    requires EvidenceHeld(v, i) && Extends(v, u)
    ensures EvidenceHeld(u, i)
  {
    AllStoredGrows(v, u, [i.snapshots.corpus, i.snapshots.registry, i.snapshots.policy]);
  }

  /** What a call works on is what its request names and the store holds, down to the last checkpoint as head. */
  lemma ResolvedIsRead(v: View, s: C.Scheme, parser: Parser, q: Request, e: Evidence)
    requires Loads(v, s, parser, q, e) && e.checkpoints != []
    ensures var i := Resolve(s, q, e);
            && i.run == q.run && i.windows == q.windows && i.log.verifiedAt == q.verifiedAt
            && i.witnesses.evaluatedAt == q.evaluatedAt && i.log.ledger == q.ledger
            && i.log.log.reference == q.log.reference && i.log.policy.reference == q.checkpointPolicy.reference
            && Read(v, parser.checkpoint, s.Reference, i.log.log.checkpointRefs, i.log.checkpoints)
            && Read(v, parser.attestation, AttestationRef, i.witnesses.corpus.attestationRefs, i.witnesses.attestations)
            && i.log.checkpoints != [] && i.witnesses.head == Last(i.log.checkpoints)
            && AllStored(v, [i.snapshots.corpus, i.snapshots.checkpointPolicy, i.snapshots.log])
  {
  }

  /** Loaded records are constructed ones, and stay retrievable. */
  lemma ResolvedIsWired(v: View, s: C.Scheme, parser: Parser, q: Request, e: Evidence)
    requires RequestConstructed(s, parser, q) && Loads(v, s, parser, q, e)
    ensures e.checkpoints != [] && Wired(s, Resolve(s, q, e)) && EvidenceHeld(v, Resolve(s, q, e))
  {
    forall k | 0 <= k < |e.checkpoints| ensures C.Constructed(s, e.checkpoints[k]) {
      assert ReadsAs(v, parser.checkpoint, s.Reference, q.log.checkpointRefs[k], e.checkpoints[k]);
    }
    forall k | 0 <= k < |e.attestations| ensures e.attestations[k].Constructed() {
      assert ReadsAs(v, parser.attestation, AttestationRef, q.corpus.attestationRefs[k], e.attestations[k]);
    }
    ReadIsHeld(v, v, parser.attestation, AttestationRef, q.corpus.attestationRefs, e.attestations);
    ReadIsHeld(v, v, parser.checkpoint, s.Reference, q.log.checkpointRefs, e.checkpoints);
  }

  // ----- what a call appends -----

  function ExperimentKey(plan: Plan): string {
    plan.experimentId + ":" + plan.experimentVersion
  }

  function ReportArtifact(ser: Serializer, i: RunInputs): Artifact {
    MakeArtifact(ser.h, Id(i.run, CheckpointVerification), ser.report(i.report))
  }

  function ReportMarker(ser: Serializer, i: RunInputs): Artifact {
    var r := i.report;
    MakeArtifact(
      ser.h, Id(ExperimentKey(i.log.plan), CheckpointVerification),
      ser.checkpointMarker(
        CheckpointMarker(r.experimentId, r.experimentVersion, r.corpusRef, r.policyRef, r.logRef, r.headRef)))
  }

  function DecisionArtifact(ser: Serializer, i: RunInputs): Artifact {
    MakeArtifact(ser.h, Id(i.run, WitnessDecision), ser.decision(i.decision))
  }

  function DecisionMarker(ser: Serializer, i: RunInputs): Artifact {
    var d := i.decision;
    MakeArtifact(
      ser.h, Id(ExperimentKey(i.witnesses.plan), WitnessDecision),
      ser.witnessMarker(
        WitnessMarker(d.experimentId, d.experimentVersion, d.corpusRef, d.registryRef, d.policyRef, d.headRef)))
  }

  function FinalKind(witnessOutcome: Outcome, terminalOutcome: Outcome): Kind {
    if witnessOutcome == Abstain then WitnessAbstention
    else if terminalOutcome == Execute then WitnessCompletion
    else WitnessTerminalAbstention
  }

  /** The receipt the final manifest draws on: none when the witnesses abstain. */
  function Delegated(i: RunInputs, b: Behaviour): Option<DelegatedReceipt> {
    if i.decision.outcome == Execute then b.receipt else None
  }

  function Final(ser: Serializer, i: RunInputs, delegated: Option<DelegatedReceipt>): FinalManifest {
    var d := i.decision;
    var terminal := if delegated.Some? then delegated.value.terminalOutcome else Abstain;
    FinalManifest(
      Id(i.run, FinalKind(d.outcome, terminal)), i.run, d.outcome,
      if delegated.Some? then Some(delegated.value.revocationOutcome) else None,
      if delegated.Some? then delegated.value.downstream else NO_DOWNSTREAM,
      terminal, i.log.plan.experimentId, i.log.plan.experimentVersion, i.log.plan.contentIds,
      Unversioned(i.log.corpus.reference), Unversioned(i.witnesses.registry.reference),
      Unversioned(i.witnesses.policy.reference), i.witnesses.corpus.attestationRefs,
      ReportArtifact(ser, i).Reference(), DecisionArtifact(ser, i).Reference(),
      if delegated.Some? then Some(delegated.value.finalRef) else None,
      if delegated.Some? then delegated.value.completedAt else i.witnesses.evaluatedAt)
  }

  function FinalArtifact(ser: Serializer, i: RunInputs, b: Behaviour): Artifact {
    var final := Final(ser, i, Delegated(i, b));
    MakeArtifact(ser.h, final.finalId, ser.final(final))
  }

  function Head(ser: Serializer, i: RunInputs): seq<Artifact> {
    [ReportArtifact(ser, i), ReportMarker(ser, i)] + [DecisionArtifact(ser, i), DecisionMarker(ser, i)]
  }

  function DelegatedScript(i: RunInputs, b: Behaviour): seq<Artifact> {
    if i.decision.outcome == Execute then b.script else []
  }

  /** A final exists once execution, where there is any, has returned. */
  predicate Finishes(i: RunInputs, b: Behaviour) {
    i.decision.outcome == Execute ==> b.receipt.Some?
  }

  function Script(ser: Serializer, i: RunInputs, b: Behaviour): seq<Artifact> {
    Head(ser, i) + DelegatedScript(i, b) + (if Finishes(i, b) then [FinalArtifact(ser, i, b)] else [])
  }

  // ----- records -----

  /** The final manifest's own constructor. */
  ghost predicate FinalConstructed(f: FinalManifest) {
    && |f.contentIds| >= 2 && Distinct(f.contentIds) && f.attestationRefs != []
    && (if f.witnessOutcome == Abstain then
          f.terminalOutcome == Abstain && f.revocationOutcome.None? && f.checkpointFinalRef.None?
        else
          f.revocationOutcome.Some? && f.checkpointFinalRef.Some?)
    && f.finalId == Id(f.run, FinalKind(f.witnessOutcome, f.terminalOutcome))
  }

  datatype Receipt = Receipt(final: FinalManifest, finalRef: Ref, delegated: Option<DelegatedReceipt>)

  /** The receipt's own constructor: it repeats the final's outcomes and must agree with the delegated receipt. */
  ghost predicate ReceiptConstructed(r: Receipt) {
    && (r.delegated.Some? <==> r.final.witnessOutcome == Execute)
    && (r.delegated.Some? ==>
          && r.final.revocationOutcome == Some(r.delegated.value.revocationOutcome)
          && r.final.terminalOutcome == r.delegated.value.terminalOutcome)
    && r.finalRef.id == Id(r.final.run, FinalKind(r.final.witnessOutcome, r.final.terminalOutcome))
  }

  datatype Stage =
    | Preflight | EvidenceLoading | CheckpointValidation | CheckpointReportPersistence | WitnessValidation
    | WitnessDecisionPersistence | CheckpointExecution | FinalPersistence

  datatype RunResult = Completed(receipt: Receipt) | FailedAt(stage: Stage)

  predicate PreflightPasses(
    windows: seq<string>, plan: Plan, corpus: G.WitnessCorpus, registry: G.WitnessRegistry, policy: G.WitnessPolicy)
  {
    && plan.status == Frozen
    && plan.corpusRef == corpus.corpus.reference && plan.contentIds == corpus.corpus.contentIds
    && corpus.registryRef == registry.reference && corpus.policyRef == policy.reference
    && windows == corpus.corpus.contentIds && |windows| >= 2
  }

  predicate PreflightPassed(i: RunInputs) {
    PreflightPasses(i.windows, i.witnesses.plan, i.witnesses.corpus, i.witnesses.registry, i.witnesses.policy)
  }

  /** The records built at the end of a call satisfy their constructors, whatever came before. */
  lemma RecordsAreConstructed(ser: Serializer, s: C.Scheme, i: RunInputs, b: Behaviour)
    requires Wired(s, i) && PreflightPassed(i) && G.ValidWitnesses(s, i.witnesses) && Finishes(i, b)
    ensures var final := Final(ser, i, Delegated(i, b));
            FinalConstructed(final) && ReceiptConstructed(ReceiptOf(ser, i, b))
  {
    assert |i.witnesses.corpus.attestationRefs| == |i.witnesses.registry.witnesses|;
  }

  /** What a completed run's records say, told from the heads the witnesses saw and the delegated receipt. */
  ghost predicate NamesItsOutcome(s: C.Scheme, i: RunInputs, b: Behaviour, r: Receipt) {
    var conflicted, f := G.Conflicted(s, i.witnesses), r.final;
    && f.run == i.run && r.finalRef.id == f.finalId
    && (f.finalId == Id(i.run, WitnessAbstention) <==> conflicted)
    && (f.finalId == Id(i.run, WitnessCompletion) <==>
          !conflicted && b.receipt.Some? && b.receipt.value.terminalOutcome == Execute)
    && (f.finalId == Id(i.run, WitnessTerminalAbstention) <==>
          !conflicted && b.receipt.Some? && b.receipt.value.terminalOutcome == Abstain)
    && (if conflicted then CarriesNothing(i, r) else b.receipt.Some? && Carries(r, b.receipt.value))
  }

  /** Nothing was delegated. */
  predicate CarriesNothing(i: RunInputs, r: Receipt) {
    && r.delegated == None && r.final.witnessOutcome == Abstain && r.final.terminalOutcome == Abstain
    && r.final.revocationOutcome == None && r.final.downstream == NO_DOWNSTREAM
    && r.final.checkpointFinalRef == None && r.final.completedAt == i.witnesses.evaluatedAt
  }

  /** The delegated receipt's own outcomes, final and time. */
  predicate Carries(r: Receipt, delegated: DelegatedReceipt) {
    && r.delegated == Some(delegated) && r.final.witnessOutcome == Execute
    && r.final.terminalOutcome == delegated.terminalOutcome
    && r.final.revocationOutcome == Some(delegated.revocationOutcome) && r.final.downstream == delegated.downstream
    && r.final.checkpointFinalRef == Some(delegated.finalRef) && r.final.completedAt == delegated.completedAt
  }

  /**
  Which final a run ends in: an abstention exactly if some witness saw another head, otherwise a
  completion or a terminal abstention exactly as the delegated run executed or abstained.
  */
  lemma FinalNamesTheOutcome(ser: Serializer, s: C.Scheme, i: RunInputs, b: Behaviour)
    requires Wired(s, i) && G.ValidWitnesses(s, i.witnesses) && Finishes(i, b)
    ensures NamesItsOutcome(s, i, b, ReceiptOf(ser, i, b))
  {
    G.OneConflictAbstains(s, i.witnesses);
    DistinctFinals(i.run);
  }

  lemma DistinctFinals(run: string)
    ensures Id(run, WitnessAbstention) != Id(run, WitnessCompletion)
    ensures Id(run, WitnessAbstention) != Id(run, WitnessTerminalAbstention)
    ensures Id(run, WitnessCompletion) != Id(run, WitnessTerminalAbstention)
  {
    if Id(run, WitnessAbstention) == Id(run, WitnessCompletion) {
      IdsAreInjective(run, WitnessAbstention, run, WitnessCompletion);
    }
    if Id(run, WitnessAbstention) == Id(run, WitnessTerminalAbstention) {
      IdsAreInjective(run, WitnessAbstention, run, WitnessTerminalAbstention);
    }
    if Id(run, WitnessCompletion) == Id(run, WitnessTerminalAbstention) {
      IdsAreInjective(run, WitnessCompletion, run, WitnessTerminalAbstention);
    }
  }

  /** Why the decision was not stored, and what was. */
  ghost predicate StopsDeciding(ser: Serializer, s: C.Scheme, i: RunInputs, before: View, now: View, stage: Stage) {
    var report := [ReportArtifact(ser, i), ReportMarker(ser, i)];
    var decision := [DecisionArtifact(ser, i), DecisionMarker(ser, i)];
    match stage
    case CheckpointValidation => !C.ValidLog(s, i.log) && now == before
    case CheckpointReportPersistence => C.ValidLog(s, i.log) && Partial(before, now, report)
    case WitnessValidation =>
      C.ValidLog(s, i.log) && !G.ValidWitnesses(s, i.witnesses) && Full(before, now, report)
    case WitnessDecisionPersistence =>
      C.ValidLog(s, i.log) && G.ValidWitnesses(s, i.witnesses) && Reaches(before, now, report, decision)
    case _ => false
  }

  /** Why the final was not stored after the decision was, and what was. */
  ghost predicate StopsFinishing(ser: Serializer, i: RunInputs, b: Behaviour, before: View, now: View, stage: Stage) {
    match stage
    case CheckpointExecution => i.decision.outcome == Execute && Reaches(before, now, Head(ser, i), b.script)
    case FinalPersistence =>
      Finishes(i, b) && Reaches(before, now, Head(ser, i) + DelegatedScript(i, b), [FinalArtifact(ser, i, b)])
    case _ => false
  }

  /** What the stage named by a failed call says of its evidence and of the store it leaves. */
  ghost predicate StopsAt(
    ser: Serializer, s: C.Scheme, i: RunInputs, b: Behaviour, before: View, now: View, stage: Stage)
  {
    || StopsDeciding(ser, s, i, before, now, stage)
    || (C.ValidLog(s, i.log) && G.ValidWitnesses(s, i.witnesses) && StopsFinishing(ser, i, b, before, now, stage))
  }

  // ----- the runner -----

  /** How often the delegated runner has been executed, whichever runner did it. */
  class Executions {
    ghost var count: nat

    constructor ()
      ensures count == 0
    {
      count := 0;
    }
  }

  class CheckpointWitnessRunner {
    const store: FileSystemArtifactStore
    const executions: Executions

    constructor (store: FileSystemArtifactStore)
      ensures this.store == store && fresh(executions) && executions.count == 0
    {
      this.store := store;
      executions := new Executions();
    }

    /** Appends one artifact, which executes nothing. */
    method Append(a: Artifact, faults: FaultPlan) returns (ok: bool)
      requires store.Consistent() && WellFormed(store.hashing, a)
      modifies store
      ensures store.Consistent() && executions.count == old(executions.count)
      ensures ok ==> Full(old(store.Readable()), store.Readable(), [a])
      ensures !ok ==> Partial(old(store.Readable()), store.Readable(), [a])
    {
      ok := AppendOne(store, a, faults);
    }

    /** Stores a document under the run's name, reads it back, then stores the experiment's marker. */
    method PersistWithMarker(document: Artifact, marker: Artifact, faults: FaultPlan) returns (ok: bool)
      requires store.Consistent() && WellFormed(store.hashing, document) && WellFormed(store.hashing, marker)
      modifies store
      ensures store.Consistent() && executions.count == old(executions.count)
      ensures ok ==> Full(old(store.Readable()), store.Readable(), [document, marker])
      ensures !ok ==> Partial(old(store.Readable()), store.Readable(), [document, marker])
    {
      assert [document, marker] == [document] + [marker];
      ok := Append(document, faults);
      if !ok {
        PartialOfLonger(old(store.Readable()), store.Readable(), [document], [marker]);
        return false;
      }
      ghost var middle := store.Readable();
      assert [document][..1] == [document];
      var back := LoadAll(store, [document]);
      assert back.Some?;
      ok := Append(marker, (k: nat) => faults(k + 1));
      if !ok {
        FullThenPartial(old(store.Readable()), middle, store.Readable(), [document], [marker]);
        return false;
      }
      FullThenFull(old(store.Readable()), middle, store.Readable(), [document], [marker]);
    }

    method RunDelegated(b: Behaviour, faults: FaultPlan) returns (receipt: Option<DelegatedReceipt>)
      requires store.Consistent() && Honest(store.hashing, b)
      modifies executions, store
      ensures store.Consistent() && executions.count == old(executions.count) + 1
      ensures receipt.Some? ==> receipt == b.receipt && Full(old(store.Readable()), store.Readable(), b.script)
      ensures receipt.None? ==> Partial(old(store.Readable()), store.Readable(), b.script)
    {
      executions.count := executions.count + 1;
      var done, stop := AppendAll(store, b.script, faults);
      if stop.Some? {
        StoppedIsPartial(old(store.Readable()), store.Readable(), b.script, done, stop.value);
        return None;
      }
      receipt := b.receipt;
    }

    /** Checkpoint report first, witness decision second; each is stored before the next stage begins. */
    method Decide(ser: Serializer, s: C.Scheme, i: RunInputs, faults: nat -> FaultPlan) returns (failure: Option<Stage>)
      requires store.Consistent() && store.hashing == ser.h && Wired(s, i)
      modifies store
      ensures store.Consistent() && executions.count == old(executions.count)
      ensures failure.None? ==> Full(old(store.Readable()), store.Readable(), Head(ser, i))
                                && C.ValidLog(s, i.log) && G.ValidWitnesses(s, i.witnesses)
      ensures failure.Some? ==> Partial(old(store.Readable()), store.Readable(), Head(ser, i))
                                && StopsDeciding(ser, s, i, old(store.Readable()), store.Readable(), failure.value)
      ensures !C.ValidLog(s, i.log) ==> failure.Some? && store.Contents() == old(store.Contents())
    {
      ghost var before := store.Readable();
      ghost var report, reportMarker := ReportArtifact(ser, i), ReportMarker(ser, i);
      ghost var decision, decisionMarker := DecisionArtifact(ser, i), DecisionMarker(ser, i);
      NothingAppended(before, Head(ser, i));
      var log := C.Validate(s, i.log);
      if log.Refused? {
        return Some(CheckpointValidation);
      }
      var reported := i.(report := log.report);
      var ok := PersistWithMarker(ReportArtifact(ser, reported), ReportMarker(ser, reported), faults(0));
      if !ok {
        PartialOfLonger(before, store.Readable(), [report, reportMarker], [decision, decisionMarker]);
        return Some(CheckpointReportPersistence);
      }
      ghost var middle := store.Readable();
      NothingAppended(middle, [decision, decisionMarker]);
      var witnesses := G.ValidateWitnesses(s, i.witnesses);
      if witnesses.Refused? {
        FullThenPartial(before, middle, store.Readable(), [report, reportMarker], [decision, decisionMarker]);
        return Some(WitnessValidation);
      }
      var decided := reported.(decision := witnesses.decision);
      ok := PersistWithMarker(DecisionArtifact(ser, decided), DecisionMarker(ser, decided), faults(1));
      if !ok {
        FullThenPartial(before, middle, store.Readable(), [report, reportMarker], [decision, decisionMarker]);
        return Some(WitnessDecisionPersistence);
      }
      FullThenFull(before, middle, store.Readable(), [report, reportMarker], [decision, decisionMarker]);
      failure := None;
    }

    /** Delegates if and only if the witnesses let it. */
    method Delegate(i: RunInputs, b: Behaviour, faults: FaultPlan) returns (delegated: Option<DelegatedReceipt>, failed: bool)
      requires store.Consistent() && Honest(store.hashing, b)
      modifies executions, store
      ensures store.Consistent()
      ensures executions.count == old(executions.count) + Delegations(i)
      ensures !failed ==> delegated == Delegated(i, b) && Finishes(i, b)
                          && Full(old(store.Readable()), store.Readable(), DelegatedScript(i, b))
      ensures failed ==> i.decision.outcome == Execute
                         && Partial(old(store.Readable()), store.Readable(), DelegatedScript(i, b))
    {
      delegated, failed := None, false;
      if i.decision.outcome == Execute {
        delegated := RunDelegated(b, faults);
        failed := delegated.None?;
      }
    }

    /** Reads back the final, the documents and every reference it rests on. */
    method VerifyFinal(ser: Serializer, i: RunInputs, final: Artifact, delegated: Option<DelegatedReceipt>)
      returns (ok: bool)
      ensures ok <==> AllStored(store.Readable(), Verified(ser, i, final)) && AllHeld(store.Readable(), VerifiedRefs(i))
                      && (delegated.Some? ==> Held(store.Readable(), delegated.value.finalRef))
    {
      var documents := LoadAll(store, Verified(ser, i, final));
      if documents.None? {
        return false;
      }
      ok := FindAll(store, VerifiedRefs(i));
      if ok && delegated.Some? {
        var last := store.Get(delegated.value.finalRef.id, Some(delegated.value.finalRef.hash));
        ok := last.Found?;
      }
    }

    /** Stores the final manifest and verifies it with everything it rests on. */
    method Finish(
      ser: Serializer, i: RunInputs, b: Behaviour, delegated: Option<DelegatedReceipt>,
      ghost before: View, faults: FaultPlan)
      returns (receipt: Option<Receipt>)
      requires store.Consistent() && store.hashing == ser.h && Honest(ser.h, b)
      requires Finishes(i, b) && delegated == Delegated(i, b) && EvidenceHeld(before, i)
      requires Full(before, store.Readable(), Head(ser, i) + DelegatedScript(i, b))
      modifies store
      ensures store.Consistent() && executions.count == old(executions.count)
      ensures receipt.Some? ==>
                && Full(before, store.Readable(), Script(ser, i, b))
                && receipt.value == Receipt(Final(ser, i, delegated), FinalArtifact(ser, i, b).Reference(), delegated)
      ensures receipt.None? ==> Partial(before, store.Readable(), Script(ser, i, b))
                                && StopsFinishing(ser, i, b, before, store.Readable(), FinalPersistence)
    {
      ghost var middle := store.Readable();
      ghost var sofar := Head(ser, i) + DelegatedScript(i, b);
      var final := Final(ser, i, delegated);
      var artifact := MakeArtifact(ser.h, final.finalId, ser.final(final));
      var ok := Append(artifact, faults);
      if !ok {
        FullThenPartial(before, middle, store.Readable(), sofar, [artifact]);
        return None;
      }
      FullThenFull(before, middle, store.Readable(), sofar, [artifact]);
      VerificationSucceeds(ser, i, b, before, store.Readable());
      ok := VerifyFinal(ser, i, artifact, delegated);
      assert ok;
      receipt := Some(Receipt(final, artifact.Reference(), delegated));
    }

    /** Everything after the decision is stored. */
    method Conclude(ser: Serializer, i: RunInputs, b: Behaviour, ghost before: View, faults: nat -> FaultPlan)
      returns (r: RunResult)
      requires store.Consistent() && store.hashing == ser.h && Honest(ser.h, b) && EvidenceHeld(before, i)
      requires Full(before, store.Readable(), Head(ser, i))
      modifies executions, store
      ensures store.Consistent()
      ensures Partial(before, store.Readable(), Script(ser, i, b))
      ensures executions.count <= old(executions.count) + Delegations(i)
      ensures r.FailedAt? ==> StopsFinishing(ser, i, b, before, store.Readable(), r.stage)
      ensures r.Completed? ==>
                && Full(before, store.Readable(), Script(ser, i, b)) && Finishes(i, b)
                && r.receipt == ReceiptOf(ser, i, b)
                && executions.count == old(executions.count) + Delegations(i)
    {
      ghost var decided := store.Readable();
      var delegated, failed := Delegate(i, b, faults(2));
      if failed {
        FullThenPartial(before, decided, store.Readable(), Head(ser, i), DelegatedScript(i, b));
        UpToDelegation(ser, i, b, before, store.Readable());
        return FailedAt(CheckpointExecution);
      }
      FullThenFull(before, decided, store.Readable(), Head(ser, i), DelegatedScript(i, b));
      var receipt := Finish(ser, i, b, delegated, before, faults(3));
      if receipt.None? {
        return FailedAt(FinalPersistence);
      }
      FullIsPartial(before, store.Readable(), Script(ser, i, b));
      r := Completed(receipt.value);
    }

    /** Everything after the evidence is read. */
    method RunLoaded(ser: Serializer, s: C.Scheme, i: RunInputs, b: Behaviour, faults: nat -> FaultPlan)
      returns (r: RunResult)
      requires store.Consistent() && store.hashing == ser.h && Wired(s, i) && Honest(ser.h, b)
      requires PreflightPassed(i) && EvidenceHeld(store.Readable(), i)
      modifies executions, store
      ensures store.Consistent()
      ensures Partial(old(store.Readable()), store.Readable(), Script(ser, i, b))
      ensures executions.count <= old(executions.count) + Delegations(i)
      ensures r.FailedAt? ==> StopsAt(ser, s, i, b, old(store.Readable()), store.Readable(), r.stage)
      ensures r.Completed? ==>
                && Full(old(store.Readable()), store.Readable(), Script(ser, i, b))
                && Completable(s, i, b, old(store.Readable()))
                && r.receipt == ReceiptOf(ser, i, b)
                && FinalConstructed(r.receipt.final) && ReceiptConstructed(r.receipt)
                && NamesItsOutcome(s, i, b, r.receipt)
                && executions.count == old(executions.count) + Delegations(i)
    {
      ghost var before := store.Readable();
      var failure := Decide(ser, s, i, faults);
      if failure.Some? {
        UpToDecision(ser, i, b, before, store.Readable());
        return FailedAt(failure.value);
      }
      r := Conclude(ser, i, b, before, faults);
      if r.Completed? {
        RecordsAreConstructed(ser, s, i, b);
        FinalNamesTheOutcome(ser, s, i, b);
      }
    }

    /**
    One call.  Without readable evidence it appends nothing.  Otherwise, whatever stops it, the
    store holds a prefix of the script of that evidence.  A completed call has stored the whole
    script, delegated exactly when the witnesses executed, passed its own final verification, and
    returns records their constructors accept.
    */
    method Run(ser: Serializer, s: C.Scheme, parser: Parser, q: Request, b: Behaviour, faults: nat -> FaultPlan)
      returns (r: RunResult)
      requires store.Consistent() && store.hashing == ser.h && RequestConstructed(s, parser, q) && Honest(ser.h, b)
      modifies executions, store
      ensures store.Consistent()
      ensures !PreflightPasses(q.windows, q.plan, q.corpus, q.registry, q.policy) ==> r == FailedAt(Preflight)
      ensures EvidenceIn(old(store.Readable()), s, parser, q).None? ==>
                r.FailedAt? && store.Contents() == old(store.Contents()) && executions.count == old(executions.count)
      ensures PreflightPasses(q.windows, q.plan, q.corpus, q.registry, q.policy) ==>
                (r == FailedAt(EvidenceLoading) <==> EvidenceIn(old(store.Readable()), s, parser, q).None?)
      ensures EvidenceIn(old(store.Readable()), s, parser, q).Some? ==>
                var i := Resolve(s, q, EvidenceIn(old(store.Readable()), s, parser, q).value);
                && Partial(old(store.Readable()), store.Readable(), Script(ser, i, b))
                && executions.count <= old(executions.count) + Delegations(i)
                && (r.FailedAt? && PreflightPassed(i) ==>
                      StopsAt(ser, s, i, b, old(store.Readable()), store.Readable(), r.stage))
                && (r.Completed? ==>
                      && Full(old(store.Readable()), store.Readable(), Script(ser, i, b))
                      && Completable(s, i, b, old(store.Readable()))
                      && r.receipt == ReceiptOf(ser, i, b)
                      && FinalConstructed(r.receipt.final) && ReceiptConstructed(r.receipt)
                      && NamesItsOutcome(s, i, b, r.receipt)
                      && executions.count == old(executions.count) + Delegations(i))
    {
      ghost var found := EvidenceIn(store.Readable(), s, parser, q);
      if found.Some? {
        ResolvedIsWired(store.Readable(), s, parser, q, found.value);
        NothingAppended(store.Readable(), Script(ser, Resolve(s, q, found.value), b));
      }
      if !PreflightPasses(q.windows, q.plan, q.corpus, q.registry, q.policy) {
        return FailedAt(Preflight);
      }
      var evidence := LoadEvidence(store, s, parser, q);
      if evidence.None? {
        return FailedAt(EvidenceLoading);
      }
      r := RunLoaded(ser, s, Resolve(s, q, evidence.value), b, faults);
    }
  }

  lemma UpToDelegation(ser: Serializer, i: RunInputs, b: Behaviour, before: View, now: View)
    requires Partial(before, now, Head(ser, i) + DelegatedScript(i, b))
    ensures Partial(before, now, Script(ser, i, b))
  {
    PartialOfLonger(before, now, Head(ser, i) + DelegatedScript(i, b),
                    if Finishes(i, b) then [FinalArtifact(ser, i, b)] else []);
  }

  lemma UpToDecision(ser: Serializer, i: RunInputs, b: Behaviour, before: View, now: View)
    requires Partial(before, now, Head(ser, i))
    ensures Partial(before, now, Script(ser, i, b))
  {
    PartialOfLonger(before, now, Head(ser, i), DelegatedScript(i, b));
    UpToDelegation(ser, i, b, before, now);
  }

  /** How often a completed call delegates. */
  function Delegations(i: RunInputs): nat {
    if i.decision.outcome == Execute then 1 else 0
  }

  function ReceiptOf(ser: Serializer, i: RunInputs, b: Behaviour): Receipt {
    Receipt(Final(ser, i, Delegated(i, b)), FinalArtifact(ser, i, b).Reference(), Delegated(i, b))
  }

  /** What a completed call has checked. */
  ghost predicate Completable(s: C.Scheme, i: RunInputs, b: Behaviour, before: View) {
    && PreflightPassed(i) && EvidenceHeld(before, i)
    && C.ValidLog(s, i.log) && G.ValidWitnesses(s, i.witnesses) && Finishes(i, b)
  }

  /**
  A call gets past preflight exactly if it works on the frozen plan's own content, at least two items
  of it, and with the corpus and the witness records that plan and corpus name.
  */
  lemma PreflightPassesExactly(s: C.Scheme, i: RunInputs)
    requires Wired(s, i)
    ensures PreflightPassed(i) <==>
            && i.log.plan.status == Frozen && i.log.plan.corpusRef == i.log.corpus.reference
            && i.windows == i.log.plan.contentIds == i.log.corpus.contentIds && |i.log.plan.contentIds| > 1
            && i.witnesses.corpus.registryRef == i.witnesses.registry.reference
            && i.witnesses.corpus.policyRef == i.witnesses.policy.reference
  {
  }

  /** The final the delegated runner reports can be retrieved by its reference. */
  lemma DelegatedFinalIsHeld(ser: Serializer, i: RunInputs, b: Behaviour, v: View)
    requires Honest(ser.h, b) && AllStored(v, Script(ser, i, b)) && Delegated(i, b).Some?
    ensures Held(v, b.receipt.value.finalRef)
  {
    var k :| 0 <= k < |b.script| && b.script[k].Reference() == b.receipt.value.finalRef;
    assert Script(ser, i, b)[|Head(ser, i)| + k] == b.script[k];
    assert Stored(v, b.script[k]);
  }

  /** The documents the final verification compares, and the references it looks up. */
  function Verified(ser: Serializer, i: RunInputs, final: Artifact): seq<Artifact> {
    [final] + [i.snapshots.corpus, i.snapshots.registry, i.snapshots.policy]
    + [ReportArtifact(ser, i), DecisionArtifact(ser, i)]
  }

  function VerifiedRefs(i: RunInputs): seq<Ref> {
    i.witnesses.corpus.attestationRefs + i.log.log.checkpointRefs
  }

  /** What the final verification has read back, when it succeeds, is exactly this. */
  lemma VerificationReadsBack(ser: Serializer, i: RunInputs, final: Artifact, v: View)
    ensures AllStored(v, Verified(ser, i, final)) && AllHeld(v, VerifiedRefs(i)) <==>
            && Stored(v, final) && Stored(v, ReportArtifact(ser, i)) && Stored(v, DecisionArtifact(ser, i))
            && Stored(v, i.snapshots.corpus) && Stored(v, i.snapshots.registry) && Stored(v, i.snapshots.policy)
            && AllHeld(v, i.witnesses.corpus.attestationRefs) && AllHeld(v, i.log.log.checkpointRefs)
  {
    var documents, first := Verified(ser, i, final), i.witnesses.corpus.attestationRefs;
    assert documents[0] == final && documents[4] == ReportArtifact(ser, i) && documents[5] == DecisionArtifact(ser, i);
    assert documents[1] == i.snapshots.corpus && documents[2] == i.snapshots.registry && documents[3] == i.snapshots.policy;
    if AllStored(v, documents) {
      assert Stored(v, documents[0]) && Stored(v, documents[1]) && Stored(v, documents[2]);
      assert Stored(v, documents[3]) && Stored(v, documents[4]) && Stored(v, documents[5]);
    }
    AllHeldTogether(v, first, i.log.log.checkpointRefs);
  }

  lemma AllHeldTogether(v: View, first: seq<Ref>, second: seq<Ref>)
    ensures AllHeld(v, first + second) <==> AllHeld(v, first) && AllHeld(v, second)
  {
    var both := first + second;
    assert forall k :: 0 <= k < |first| ==> both[k] == first[k];
    assert forall k :: 0 <= k < |second| ==> both[|first| + k] == second[k];
    if AllHeld(v, both) {
      forall k | 0 <= k < |second| ensures Held(v, second[k]) {
        assert Held(v, both[|first| + k]);
      }
    }
  }

  /** A script that was stored whole holds its report, its decision and its final. */
  lemma ScriptIsStored(ser: Serializer, i: RunInputs, b: Behaviour, v: View)
    requires Finishes(i, b) && AllStored(v, Script(ser, i, b))
    ensures Stored(v, ReportArtifact(ser, i)) && Stored(v, DecisionArtifact(ser, i))
    ensures Stored(v, FinalArtifact(ser, i, b))
  {
    var script := Script(ser, i, b);
    assert script[0] == ReportArtifact(ser, i) && script[2] == DecisionArtifact(ser, i);
    assert script[|script| - 1] == FinalArtifact(ser, i, b);
    assert Stored(v, script[0]) && Stored(v, script[2]) && Stored(v, script[|script| - 1]);
  }

  /** The final verification of a call whose appends all succeeded cannot fail. */
  lemma VerificationSucceeds(ser: Serializer, i: RunInputs, b: Behaviour, before: View, now: View)
    requires Honest(ser.h, b) && Finishes(i, b) && Full(before, now, Script(ser, i, b)) && EvidenceHeld(before, i)
    ensures AllStored(now, Verified(ser, i, FinalArtifact(ser, i, b))) && AllHeld(now, VerifiedRefs(i))
    ensures Delegated(i, b).Some? ==> Held(now, Delegated(i, b).value.finalRef)
  {
    FullIsStored(before, now, Script(ser, i, b));
    ScriptIsStored(ser, i, b, now);
    EvidenceHeldStays(before, now, i);
    if Delegated(i, b).Some? {
      DelegatedFinalIsHeld(ser, i, b, now);
    }
  }

  /** The store holds this document, and the reference is its own. */
  ghost predicate Resolves(v: View, ref: Ref, a: Artifact) {
    ref == a.Reference() && Stored(v, a)
  }

  /** Every reference of the final leads to the document of its kind. */
  ghost predicate Grounded(ser: Serializer, i: RunInputs, v: View, f: FinalManifest) {
    && Resolves(v, f.corpusRef, i.snapshots.corpus) && Resolves(v, f.registryRef, i.snapshots.registry)
    && Resolves(v, f.policyRef, i.snapshots.policy)
    && Resolves(v, f.verificationRef,
                MakeArtifact(ser.h, Id(i.run, CheckpointVerification), ser.report(i.report)))
    && Resolves(v, f.decisionRef, MakeArtifact(ser.h, Id(i.run, WitnessDecision), ser.decision(i.decision)))
    && f.attestationRefs == i.witnesses.corpus.attestationRefs && AllHeld(v, f.attestationRefs)
    && (f.checkpointFinalRef.Some? ==> Held(v, f.checkpointFinalRef.value))
    && f.experimentId == i.log.plan.experimentId && f.experimentVersion == i.log.plan.experimentVersion
    && f.contentIds == i.log.plan.contentIds
  }

  /**
  A completed run's final can be followed to everything it names: the records of the request, the
  report and the decision of this very run, the attestations, and the delegated final.
  */
  lemma FinalIsGrounded(
    ser: Serializer, s: C.Scheme, parser: Parser, q: Request, e: Evidence, b: Behaviour, before: View, now: View)
    requires RequestConstructed(s, parser, q) && Honest(ser.h, b) && Loads(before, s, parser, q, e)
    requires e.checkpoints != [] && Finishes(Resolve(s, q, e), b)
    requires Full(before, now, Script(ser, Resolve(s, q, e), b))
    ensures var i := Resolve(s, q, e);
            Grounded(ser, i, now, ReceiptOf(ser, i, b).final) && Stored(now, FinalArtifact(ser, i, b))
  {
    var i := Resolve(s, q, e);
    ResolvedIsWired(before, s, parser, q, e);
    VerificationSucceeds(ser, i, b, before, now);
    var documents := Verified(ser, i, FinalArtifact(ser, i, b));
    assert Stored(now, documents[0]) && Stored(now, documents[1]) && Stored(now, documents[2]);
    assert Stored(now, documents[3]) && Stored(now, documents[4]) && Stored(now, documents[5]);
    assert forall k :: 0 <= k < |i.witnesses.corpus.attestationRefs| ==>
             VerifiedRefs(i)[k] == i.witnesses.corpus.attestationRefs[k];
  }

  /** The experiment's two markers name the records that report and decision were validated on. */
  lemma MarkersNameTheRecords(ser: Serializer, s: C.Scheme, i: RunInputs)
    requires Wired(s, i) && C.ValidLog(s, i.log) && G.ValidWitnesses(s, i.witnesses)
    ensures var key := i.log.plan.experimentId + ":" + i.log.plan.experimentVersion;
            && ReportMarker(ser, i) == MakeArtifact(
                 ser.h, Id(key, CheckpointVerification),
                 ser.checkpointMarker(CheckpointMarker(
                   i.log.plan.experimentId, i.log.plan.experimentVersion, i.log.corpus.reference,
                   i.log.policy.reference, i.log.log.reference, s.Reference(Last(i.log.checkpoints)))))
            && DecisionMarker(ser, i) == MakeArtifact(
                 ser.h, Id(key, WitnessDecision),
                 ser.witnessMarker(WitnessMarker(
                   i.log.plan.experimentId, i.log.plan.experimentVersion, i.log.corpus.reference,
                   i.witnesses.registry.reference, i.witnesses.policy.reference, s.Reference(i.witnesses.head))))
  {
    C.ReportIsOfTheHead(s, i.log);
    G.DecisionReadsTheAttestations(s, i.witnesses);
  }
}
