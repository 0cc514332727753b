/**
The adjudicated runner: run the witness-gated runner, keep its result whatever it is, adjudicate,
and delegate only if adjudication executes and the inner run has not delegated already.

Each layer reads the evidence for itself, and the outer one validates the witnesses a second time.
That both come to the same decision rests on the store alone: other processes may append between
the two loads, but what was read once is read again.
*/
module AdjudicatedRunner {
  import opened Artifacts
  import opened ArtifactStore
  import opened AppendScript
  import opened Sequences
  import opened Governance
  import opened EventHistory
  import opened RunArtifactIds
  import opened StoredRecords
  import C = CheckpointLog
  import G = WitnessGate
  import W = WitnessRunner

  datatype FinalManifest = FinalManifest(
    finalId: string, run: string, witnessOutcome: Outcome, adjudicationOutcome: Outcome,
    revocationOutcome: Option<Outcome>, downstream: W.Downstream, terminalOutcome: Outcome, experimentId: string,
    experimentVersion: string, contentIds: seq<string>, corpusRef: Ref, witnessRegistryRef: Ref, witnessPolicyRef: Ref,
    attestationRefs: seq<Ref>, adjudicatorRegistryRef: Ref, adjudicationPolicyRef: Ref, adjudicationRef: Ref,
    witnessFinalRef: Ref, adjudicationDecisionRef: Ref, checkpointFinalRef: Option<Ref>, completedAt: int)

  datatype Serializer = Serializer(
    inner: W.Serializer, decision: G.AdjudicationDecision -> Bytes, final: FinalManifest -> Bytes)

  // ----- what a call is given, and what it reads -----

  /** Besides the inner request: the adjudication records, with the documents of registry and policy. */
  datatype Request = Request(
    inner: W.Request, corpus: G.AdjudicationCorpus, adjudicators: AdjudicatorRegistry, policy: G.AdjudicationPolicy,
    adjudication: Adjudication, evaluatedAt: int, registryDocument: Artifact, policyDocument: Artifact)

  ghost predicate RequestConstructed(s: C.Scheme, parser: Parser, q: Request) {
    && W.RequestConstructed(s, parser, q.inner) && q.corpus.corpus == q.inner.corpus
    && q.adjudicators.Constructed() && q.policy.Constructed() && q.adjudication.Constructed()
    && q.registryDocument.Reference() == Unversioned(q.adjudicators.reference)
    && q.policyDocument.Reference() == Unversioned(q.policy.reference)
  }

  /** The adjudication records of the request are in the store. */
  ghost predicate AdjudicationLoads(v: View, parser: Parser, q: Request) {
    && AllStored(v, [q.inner.snapshots.corpus, q.registryDocument, q.policyDocument])
    && exists records :: Read(v, parser.adjudication, AdjudicationRef, [q.adjudication.reference], records)
  }

  /** What the outer load finds: the inner evidence, if the adjudication records are there too. */
  ghost function EvidenceIn(v: View, s: C.Scheme, parser: Parser, q: Request): Option<W.Evidence> {
    if AdjudicationLoads(v, parser, q) then W.EvidenceIn(v, s, parser, q.inner) else None
  }

  method LoadAdjudication(store: FileSystemArtifactStore, parser: Parser, q: Request) returns (ok: bool)
    ensures ok <==> AdjudicationLoads(store.Readable(), parser, q)
  {
    var documents := LoadAll(store, [q.inner.snapshots.corpus, q.registryDocument, q.policyDocument]);
    if documents.None? {
      return false;
    }
    var records := LoadRecords(store, parser.adjudication, AdjudicationRef, [q.adjudication.reference]);
    ok := records.Some?;
  }

  function AdjudicationOf(q: Request, d: G.WitnessDecision): G.AdjudicationInputs {
    G.AdjudicationInputs(
      q.inner.plan, q.corpus, q.inner.registry, q.inner.policy, q.adjudicators, q.policy, d, q.adjudication,
      q.evaluatedAt)
  }

  /** The inner layer's inputs beside the adjudication of the decision the outer layer came to. */
  datatype RunInputs = RunInputs(
    inner: W.RunInputs, adjudication: G.AdjudicationInputs, registryDocument: Artifact, policyDocument: Artifact,
    decision: G.AdjudicationDecision)

  function Resolve(s: C.Scheme, q: Request, outer: W.Evidence, inner: W.Evidence): RunInputs
    requires outer.checkpoints != [] && inner.checkpoints != []
  {
    var adjudication := AdjudicationOf(q, W.Resolve(s, q.inner, outer).decision);
    RunInputs(
      W.Resolve(s, q.inner, inner), adjudication, q.registryDocument, q.policyDocument,
      G.AdjudicationDecisionOf(adjudication))
  }

  ghost predicate Wired(s: C.Scheme, i: RunInputs) {
    && W.Wired(s, i.inner) && i.decision == G.AdjudicationDecisionOf(i.adjudication)
    && i.adjudication.decision == i.inner.decision
  }

  /** Both layers find their evidence: the outer one in `before`, the inner one in `ran`. */
  ghost predicate BothLoad(s: C.Scheme, parser: Parser, q: Request, before: View, ran: View) {
    && RequestConstructed(s, parser, q)
    && EvidenceIn(before, s, parser, q).Some? && W.EvidenceIn(ran, s, parser, q.inner).Some?
  }

  ghost function InputsOf(s: C.Scheme, parser: Parser, q: Request, before: View, ran: View): RunInputs
    requires BothLoad(s, parser, q, before, ran)
  {
    Resolve(s, q, EvidenceIn(before, s, parser, q).value, W.EvidenceIn(ran, s, parser, q.inner).value)
  }

  /**
  The outer layer's decision is the one the inner layer stores, although the store may have grown
  between their loads: bindings never change, so both read the same records.
  */
  lemma DecisionIsReproduced(s: C.Scheme, parser: Parser, q: Request, before: View, ran: View)
    requires RequestConstructed(s, parser, q) && EvidenceIn(before, s, parser, q).Some? && Extends(before, ran)
    ensures BothLoad(s, parser, q, before, ran)
    ensures EvidenceIn(before, s, parser, q) == W.EvidenceIn(ran, s, parser, q.inner)
    ensures var i := InputsOf(s, parser, q, before, ran);
            i.adjudication.decision == i.inner.decision
  {
    W.LaterLoadsAgree(before, ran, s, parser, q.inner);
  }

  /** What the final verification needs of the evidence. */
  ghost predicate EvidenceHeld(v: View, i: RunInputs) {
    && W.EvidenceHeld(v, i.inner) && AllStored(v, [i.inner.snapshots.corpus, i.registryDocument, i.policyDocument])
    && Held(v, i.adjudication.adjudication.reference)
  }

  lemma EvidenceHeldStays(v: View, u: View, i: RunInputs)
    requires EvidenceHeld(v, i) && Extends(v, u)
    ensures EvidenceHeld(u, i)
  {
    W.EvidenceHeldStays(v, u, i.inner);
    AllStoredGrows(v, u, [i.inner.snapshots.corpus, i.registryDocument, i.policyDocument]);
  }

  lemma AdjudicationIsHeld(parser: Parser, q: Request, before: View, ran: View)
    requires AdjudicationLoads(before, parser, q) && Extends(before, ran)
    ensures AllStored(ran, [q.inner.snapshots.corpus, q.registryDocument, q.policyDocument])
    ensures Held(ran, q.adjudication.reference)
  {
    var refs := [q.adjudication.reference];
    var records :| Read(before, parser.adjudication, AdjudicationRef, refs, records);
    ReadIsHeld(before, ran, parser.adjudication, AdjudicationRef, refs, records);
    assert Held(ran, refs[0]);
    AllStoredGrows(before, ran, [q.inner.snapshots.corpus, q.registryDocument, q.policyDocument]);
  }

  /** Evidence found once stays retrievable. */
  lemma EvidenceIsHeld(s: C.Scheme, parser: Parser, q: Request, before: View, ran: View)
    requires BothLoad(s, parser, q, before, ran) && Extends(before, ran)
    ensures Wired(s, InputsOf(s, parser, q, before, ran)) && EvidenceHeld(ran, InputsOf(s, parser, q, before, ran))
  {
    DecisionIsReproduced(s, parser, q, before, ran);
    W.ResolvedIsWired(ran, s, parser, q.inner, W.EvidenceIn(ran, s, parser, q.inner).value);
    AdjudicationIsHeld(parser, q, before, ran);
  }

  predicate PreflightPasses(q: Request) {
    && W.PreflightPasses(q.inner.windows, q.inner.plan, q.inner.corpus, q.inner.registry, q.inner.policy)
    && q.corpus.adjudicatorRegistryRef == q.adjudicators.reference
    && q.corpus.adjudicationPolicyRef == q.policy.reference
    && q.corpus.adjudicationRef == q.adjudication.reference
  }

  /**
  Whatever the inner run will decide, it is run exactly for the frozen plan's own content and for the
  witness and adjudication records that plan and corpus name.
  */
  lemma PreflightPassesExactly(q: Request, d: G.WitnessDecision)
    requires q.corpus.corpus == q.inner.corpus
    ensures var g := AdjudicationOf(q, d);
            PreflightPasses(q) <==>
            && g.plan.status == Frozen && g.plan.corpusRef == g.corpus.corpus.corpus.reference
            && q.inner.windows == g.plan.contentIds == g.corpus.corpus.corpus.contentIds && |g.plan.contentIds| > 1
            && g.corpus.adjudicatorRegistryRef == g.adjudicators.reference
            && g.corpus.adjudicationPolicyRef == g.policy.reference
            && g.corpus.adjudicationRef == g.adjudication.reference
            && g.corpus.corpus.registryRef == g.witnessRegistry.reference
            && g.corpus.corpus.policyRef == g.witnessPolicy.reference
  {
  }

  // ----- what a call appends -----

  function DecisionArtifact(ser: Serializer, i: RunInputs): Artifact {
    MakeArtifact(ser.inner.h, Id(i.inner.run, AdjudicationDecision), ser.decision(i.decision))
  }

  /** The delegated call this layer makes itself: only where adjudication executes after the witnesses abstained. */
  predicate DelegatesItself(i: RunInputs, b: W.Behaviour) {
    i.decision.outcome == Execute && W.Delegated(i.inner, b).None?
  }

  function Delegated(i: RunInputs, b: W.Behaviour, own: W.Behaviour): Option<W.DelegatedReceipt> {
    if i.decision.outcome == Abstain then None
    else if W.Delegated(i.inner, b).Some? then W.Delegated(i.inner, b)
    else own.receipt
  }

  predicate Finishes(i: RunInputs, b: W.Behaviour, own: W.Behaviour) {
    W.Finishes(i.inner, b) && (DelegatesItself(i, b) ==> own.receipt.Some?)
  }

  function FinalKind(adjudicationOutcome: Outcome, terminalOutcome: Outcome): Kind {
    if adjudicationOutcome == Abstain then AdjudicationAbstention
    else if terminalOutcome == Execute then AdjudicationCompletion
    else AdjudicationTerminalAbstention
  }

  function Final(ser: Serializer, i: RunInputs, b: W.Behaviour, delegated: Option<W.DelegatedReceipt>): FinalManifest {
    var d := i.decision;
    var terminal := if delegated.Some? then delegated.value.terminalOutcome else Abstain;
    FinalManifest(
      Id(i.inner.run, FinalKind(d.outcome, terminal)), i.inner.run, i.adjudication.decision.outcome, d.outcome,
      if delegated.Some? then Some(delegated.value.revocationOutcome) else None,
      if delegated.Some? then delegated.value.downstream else W.NO_DOWNSTREAM,
      terminal, i.inner.log.plan.experimentId, i.inner.log.plan.experimentVersion, i.inner.log.plan.contentIds,
      Unversioned(i.inner.log.corpus.reference), Unversioned(i.inner.witnesses.registry.reference),
      Unversioned(i.inner.witnesses.policy.reference), i.inner.witnesses.corpus.attestationRefs,
      Unversioned(i.adjudication.adjudicators.reference), Unversioned(i.adjudication.policy.reference),
      i.adjudication.adjudication.reference, W.FinalArtifact(ser.inner, i.inner, b).Reference(),
      DecisionArtifact(ser, i).Reference(),
      if delegated.Some? then Some(delegated.value.finalRef) else None,
      if delegated.Some? then delegated.value.completedAt else i.adjudication.evaluatedAt)
  }

  function FinalArtifact(ser: Serializer, i: RunInputs, b: W.Behaviour, own: W.Behaviour): Artifact {
    var final := Final(ser, i, b, Delegated(i, b, own));
    MakeArtifact(ser.inner.h, final.finalId, ser.final(final))
  }

  function OwnScript(i: RunInputs, b: W.Behaviour, own: W.Behaviour): seq<Artifact> {
    if DelegatesItself(i, b) then own.script else []
  }

  /** Up to and including the adjudication decision. */
  function Head(ser: Serializer, i: RunInputs, b: W.Behaviour): seq<Artifact> {
    W.Script(ser.inner, i.inner, b) + [DecisionArtifact(ser, i)]
  }

  function Script(ser: Serializer, i: RunInputs, b: W.Behaviour, own: W.Behaviour): seq<Artifact> {
    Head(ser, i, b) + OwnScript(i, b, own)
    + (if Finishes(i, b, own) then [FinalArtifact(ser, i, b, own)] else [])
  }

  // ----- records -----

  ghost predicate FinalConstructed(f: FinalManifest) {
    && |f.contentIds| >= 2 && Distinct(f.contentIds) && f.attestationRefs != []
    && (if f.adjudicationOutcome == Abstain then
          f.checkpointFinalRef.None? && f.revocationOutcome.None? && f.terminalOutcome == Abstain
        else
          f.checkpointFinalRef.Some? && f.revocationOutcome.Some?)
    && f.finalId == Id(f.run, FinalKind(f.adjudicationOutcome, f.terminalOutcome))
  }

  datatype Receipt = Receipt(
    final: FinalManifest, finalRef: Ref, witnessReceipt: W.Receipt, delegated: Option<W.DelegatedReceipt>)

  ghost predicate ReceiptConstructed(r: Receipt) {
    && r.witnessReceipt.final.witnessOutcome == r.final.witnessOutcome
    && (r.delegated.Some? <==> r.final.adjudicationOutcome == Execute)
    && (r.delegated.Some? ==> r.final.terminalOutcome == r.delegated.value.terminalOutcome)
    && r.finalRef.id == Id(r.final.run, FinalKind(r.final.adjudicationOutcome, r.final.terminalOutcome))
  }

  datatype Stage =
    | Preflight | EvidenceLoading | WitnessExecution(inner: W.Stage) | AdjudicationValidation
    | AdjudicationDecisionPersistence | CheckpointExecution | FinalPersistence

  datatype RunResult = Completed(receipt: Receipt) | FailedAt(stage: Stage)

  function ReceiptOf(ser: Serializer, i: RunInputs, b: W.Behaviour, own: W.Behaviour): Receipt {
    Receipt(Final(ser, i, b, Delegated(i, b, own)), FinalArtifact(ser, i, b, own).Reference(),
            W.ReceiptOf(ser.inner, i.inner, b), Delegated(i, b, own))
  }

  lemma RecordsAreConstructed(ser: Serializer, s: C.Scheme, i: RunInputs, b: W.Behaviour, own: W.Behaviour)
    requires Wired(s, i) && W.PreflightPassed(i.inner) && G.ValidWitnesses(s, i.inner.witnesses)
    requires Finishes(i, b, own)
    ensures FinalConstructed(Final(ser, i, b, Delegated(i, b, own))) && ReceiptConstructed(ReceiptOf(ser, i, b, own))
  {
    W.RecordsAreConstructed(ser.inner, s, i.inner, b);
  }

  /** No witness saw another head, or an adjudicator resolved the conflict. */
  ghost predicate MayExecute(s: C.Scheme, i: RunInputs) {
    !G.Conflicted(s, i.inner.witnesses) || i.adjudication.adjudication.status == Resolved
  }

  /** What a completed call's records say, told from the heads the witnesses saw, the adjudication and the receipts. */
  ghost predicate NamesItsOutcome(s: C.Scheme, i: RunInputs, b: W.Behaviour, own: W.Behaviour, r: Receipt) {
    var executes, f := MayExecute(s, i), r.final;
    var receipt := if G.Conflicted(s, i.inner.witnesses) then own.receipt else b.receipt;
    && f.run == i.inner.run && r.finalRef.id == f.finalId
    && (f.witnessOutcome == Abstain <==> G.Conflicted(s, i.inner.witnesses))
    && (f.finalId == Id(i.inner.run, AdjudicationAbstention) <==> !executes)
    && (f.finalId == Id(i.inner.run, AdjudicationCompletion) <==>
          executes && receipt.Some? && receipt.value.terminalOutcome == Execute)
    && (f.finalId == Id(i.inner.run, AdjudicationTerminalAbstention) <==>
          executes && receipt.Some? && receipt.value.terminalOutcome == Abstain)
    && (if executes then receipt.Some? && Carries(r, receipt.value) else CarriesNothing(i, r))
  }

  predicate CarriesNothing(i: RunInputs, r: Receipt) {
    && r.delegated == None && r.final.adjudicationOutcome == Abstain && r.final.terminalOutcome == Abstain
    && r.final.revocationOutcome == None && r.final.downstream == W.NO_DOWNSTREAM
    && r.final.checkpointFinalRef == None && r.final.completedAt == i.adjudication.evaluatedAt
  }

  predicate Carries(r: Receipt, delegated: W.DelegatedReceipt) {
    && r.delegated == Some(delegated) && r.final.adjudicationOutcome == Execute
    && r.final.terminalOutcome == delegated.terminalOutcome
    && r.final.revocationOutcome == Some(delegated.revocationOutcome) && r.final.downstream == delegated.downstream
    && r.final.checkpointFinalRef == Some(delegated.finalRef) && r.final.completedAt == delegated.completedAt
  }

  /**
  Which final an adjudicated call ends in: an abstention exactly if a conflict was left unresolved,
  otherwise a completion or a terminal abstention exactly as the delegated run executed or abstained,
  which is the inner layer's unless the witnesses conflicted.
  */
  lemma FinalNamesTheOutcome(ser: Serializer, s: C.Scheme, i: RunInputs, b: W.Behaviour, own: W.Behaviour)
    requires Wired(s, i) && G.ValidWitnesses(s, i.inner.witnesses) && Finishes(i, b, own)
    ensures NamesItsOutcome(s, i, b, own, ReceiptOf(ser, i, b, own))
  {
    G.OneConflictAbstains(s, i.inner.witnesses);
    DistinctFinals(i.inner.run);
  }

  lemma DistinctFinals(run: string)
    ensures Id(run, AdjudicationAbstention) != Id(run, AdjudicationCompletion)
    ensures Id(run, AdjudicationAbstention) != Id(run, AdjudicationTerminalAbstention)
    ensures Id(run, AdjudicationCompletion) != Id(run, AdjudicationTerminalAbstention)
  {
    if Id(run, AdjudicationAbstention) == Id(run, AdjudicationCompletion) {
      IdsAreInjective(run, AdjudicationAbstention, run, AdjudicationCompletion);
    }
    if Id(run, AdjudicationAbstention) == Id(run, AdjudicationTerminalAbstention) {
      IdsAreInjective(run, AdjudicationAbstention, run, AdjudicationTerminalAbstention);
    }
    if Id(run, AdjudicationCompletion) == Id(run, AdjudicationTerminalAbstention) {
      IdsAreInjective(run, AdjudicationCompletion, run, AdjudicationTerminalAbstention);
    }
  }

  /** One execution if adjudication executes, none if it abstains, whichever layer performs it. */
  function Delegations(i: RunInputs): nat {
    if i.decision.outcome == Execute then 1 else 0
  }

  function OwnDelegations(i: RunInputs, b: W.Behaviour): nat {
    if DelegatesItself(i, b) then 1 else 0
  }

  /** The two layers together never delegate twice, and the inner one never against adjudication. */
  lemma LayersDelegateOnce(i: RunInputs, b: W.Behaviour)
    requires i.decision == G.AdjudicationDecisionOf(i.adjudication) && i.adjudication.decision == i.inner.decision
    ensures W.Delegations(i.inner) <= 1
    ensures W.Finishes(i.inner, b) ==> W.Delegations(i.inner) + OwnDelegations(i, b) == Delegations(i)
  {
  }

  /** Why a call ended with its inner run, or with the adjudication of what that decided. */
  ghost predicate StopsInside(
    ser: Serializer, s: C.Scheme, i: RunInputs, b: W.Behaviour, ran: View, now: View, stage: Stage)
  {
    match stage
    case WitnessExecution(inner) => W.StopsAt(ser.inner, s, i.inner, b, ran, now, inner)
    case AdjudicationValidation =>
      Full(ran, now, W.Script(ser.inner, i.inner, b)) && !G.ValidAdjudication(i.adjudication)
    case _ => false
  }

  /** Why it ended after that, and what was stored by then. */
  ghost predicate StopsConcluding(
    ser: Serializer, i: RunInputs, b: W.Behaviour, own: W.Behaviour, ran: View, now: View, stage: Stage)
  {
    match stage
    case AdjudicationDecisionPersistence =>
      Reaches(ran, now, W.Script(ser.inner, i.inner, b), [DecisionArtifact(ser, i)])
    case CheckpointExecution => DelegatesItself(i, b) && Reaches(ran, now, Head(ser, i, b), own.script)
    case FinalPersistence =>
      && Finishes(i, b, own)
      && Reaches(ran, now, Head(ser, i, b) + OwnScript(i, b, own), [FinalArtifact(ser, i, b, own)])
    case _ => false
  }

  /** What the stage named by a failed call says of its evidence and of the store it leaves. */
  ghost predicate StopsAt(
    ser: Serializer, s: C.Scheme, i: RunInputs, b: W.Behaviour, own: W.Behaviour, ran: View, now: View, stage: Stage)
  {
    || StopsInside(ser, s, i, b, ran, now, stage)
    || (G.ValidAdjudication(i.adjudication) && StopsConcluding(ser, i, b, own, ran, now, stage))
  }

  // ----- the runner -----

  class AdjudicatedCheckpointWitnessRunner {
    const store: FileSystemArtifactStore
    const witnessRunner: W.CheckpointWitnessRunner
    const executions: W.Executions

    /** Both layers work on one store and share one count of executions. */
    predicate Shares() {
      witnessRunner.store == store && witnessRunner.executions == executions
    }

    constructor (store: FileSystemArtifactStore)
      ensures this.store == store && Shares() && fresh(witnessRunner) && fresh(executions) && executions.count == 0
    {
      this.store := store;
      var inner := new W.CheckpointWitnessRunner(store);
      witnessRunner := inner;
      executions := inner.executions;
    }

    /**
    Validates the witnesses a second time, on the evidence this layer read, and adjudicates the
    decision it comes to.  The inner run has validated them, so this cannot be refused.
    */
    method Adjudicate(s: C.Scheme, q: Request, evidence: W.Evidence) returns (d: G.WitnessDecision, ok: bool)
      requires evidence.checkpoints != [] && W.Wired(s, W.Resolve(s, q.inner, evidence))
      requires G.ValidWitnesses(s, W.Resolve(s, q.inner, evidence).witnesses)
      requires q.adjudicators.Constructed() && q.policy.Constructed() && q.adjudication.Constructed()
      ensures d == W.Resolve(s, q.inner, evidence).decision && G.DecisionConstructed(d)
      ensures ok <==> G.ValidAdjudication(AdjudicationOf(q, d))
    {
      var witnesses := W.Resolve(s, q.inner, evidence).witnesses;
      var again := G.ValidateWitnesses(s, witnesses);
      d := again.decision;
      G.WitnessGateFeedsAdjudication(s, witnesses);
      var verdict := G.ValidateAdjudication(AdjudicationOf(q, d));
      ok := verdict.Adjudicated?;
    }

    /** Appends one artifact, which executes nothing. */
    method Append(a: Artifact, faults: FaultPlan) returns (ok: bool)
      requires store.Consistent() && WellFormed(store.hashing, a)
      modifies store
      ensures store.Consistent() && executions.count == old(executions.count)
      ensures ok ==> Full(old(store.Readable()), store.Readable(), [a])
      ensures !ok ==> Partial(old(store.Readable()), store.Readable(), [a])
    {
      ok := AppendOne(store, a, faults);
    }

    /** Stores the adjudication decision under the run's name and reads it back. */
    method PersistDecision(ser: Serializer, i: RunInputs, faults: FaultPlan) returns (ok: bool)
      requires store.Consistent() && store.hashing == ser.inner.h
      modifies store
      ensures store.Consistent() && executions.count == old(executions.count)
      ensures ok ==> Full(old(store.Readable()), store.Readable(), [DecisionArtifact(ser, i)])
      ensures !ok ==> Partial(old(store.Readable()), store.Readable(), [DecisionArtifact(ser, i)])
    {
      var artifact := DecisionArtifact(ser, i);
      ok := Append(artifact, faults);
      if !ok {
        return;
      }
      assert [artifact][..1] == [artifact];
      var back := LoadAll(store, [artifact]);
      assert back.Some?;
    }

    method RunDelegated(own: W.Behaviour, faults: FaultPlan) returns (receipt: Option<W.DelegatedReceipt>)
      requires store.Consistent() && W.Honest(store.hashing, own)
      modifies executions, store
      ensures store.Consistent() && executions.count == old(executions.count) + 1
      ensures receipt.Some? ==> receipt == own.receipt && Full(old(store.Readable()), store.Readable(), own.script)
      ensures receipt.None? ==> Partial(old(store.Readable()), store.Readable(), own.script)
    {
      executions.count := executions.count + 1;
      var done, stop := AppendAll(store, own.script, faults);
      if stop.Some? {
        StoppedIsPartial(old(store.Readable()), store.Readable(), own.script, done, stop.value);
        return None;
      }
      receipt := own.receipt;
    }

    /** Reuses the inner execution if there was one; otherwise delegates, if adjudication lets it. */
    method Delegate(i: RunInputs, b: W.Behaviour, own: W.Behaviour, inner: Option<W.DelegatedReceipt>, faults: FaultPlan)
      returns (delegated: Option<W.DelegatedReceipt>, failed: bool)
      requires store.Consistent() && W.Honest(store.hashing, own)
      requires inner == W.Delegated(i.inner, b) && W.Finishes(i.inner, b)
      modifies executions, store
      ensures store.Consistent() && executions.count == old(executions.count) + OwnDelegations(i, b)
      ensures !failed ==> delegated == Delegated(i, b, own) && Finishes(i, b, own)
                          && Full(old(store.Readable()), store.Readable(), OwnScript(i, b, own))
      ensures failed ==> DelegatesItself(i, b) && Partial(old(store.Readable()), store.Readable(), OwnScript(i, b, own))
    {
      delegated, failed := None, false;
      if i.decision.outcome == Execute {
        if inner.Some? {
          delegated := inner;
        } else {
          delegated := RunDelegated(own, faults);
          failed := delegated.None?;
        }
      }
    }

    /** Reads back the final, the documents and every reference it rests on. */
    method VerifyFinal(
      ser: Serializer, i: RunInputs, b: W.Behaviour, final: Artifact, delegated: Option<W.DelegatedReceipt>)
      returns (ok: bool)
      ensures ok <==>
                && AllStored(store.Readable(), Verified(ser, i, final))
                && AllHeld(store.Readable(), VerifiedRefs(ser, i, b))
                && (delegated.Some? ==> Held(store.Readable(), delegated.value.finalRef))
    {
      var documents := LoadAll(store, Verified(ser, i, final));
      if documents.None? {
        return false;
      }
      ok := FindAll(store, VerifiedRefs(ser, i, b));
      if ok && delegated.Some? {
        var last := store.Get(delegated.value.finalRef.id, Some(delegated.value.finalRef.hash));
        ok := last.Found?;
      }
    }

    method Finish(
      ser: Serializer, i: RunInputs, b: W.Behaviour, own: W.Behaviour,
      delegated: Option<W.DelegatedReceipt>, ghost before: View, faults: FaultPlan)
      returns (final: Option<FinalManifest>)
      requires store.Consistent() && store.hashing == ser.inner.h && W.Honest(ser.inner.h, b) && W.Honest(ser.inner.h, own)
      requires Finishes(i, b, own) && delegated == Delegated(i, b, own) && EvidenceHeld(before, i)
      requires Full(before, store.Readable(), Head(ser, i, b) + OwnScript(i, b, own))
      modifies store
      ensures store.Consistent() && executions.count == old(executions.count)
      ensures final.Some? ==> final.value == Final(ser, i, b, delegated)
                              && Full(before, store.Readable(), Script(ser, i, b, own))
      ensures final.None? ==> Partial(before, store.Readable(), Script(ser, i, b, own))
                              && StopsConcluding(ser, i, b, own, before, store.Readable(), FinalPersistence)
    {
      ghost var middle := store.Readable();
      ghost var sofar := Head(ser, i, b) + OwnScript(i, b, own);
      var manifest := Final(ser, i, b, delegated);
      var artifact := MakeArtifact(ser.inner.h, manifest.finalId, ser.final(manifest));
      assert artifact == FinalArtifact(ser, i, b, own);
      var ok := Append(artifact, faults);
      if !ok {
        FullThenPartial(before, middle, store.Readable(), sofar, [artifact]);
        return None;
      }
      FullThenFull(before, middle, store.Readable(), sofar, [artifact]);
      VerificationSucceeds(ser, i, b, own, before, store.Readable());
      ok := VerifyFinal(ser, i, b, artifact, delegated);
      assert ok;
      final := Some(manifest);
    }

    /** Whatever other processes append between this layer's load and the inner one's. */
    method Interfere(script: seq<Artifact>, faults: FaultPlan)
      requires store.Consistent() && WellFormedScript(store.hashing, script)
      modifies store
      ensures store.Consistent() && Partial(old(store.Readable()), store.Readable(), script)
      ensures executions.count == old(executions.count)
    {
      var done, stop := AppendAll(store, script, faults);
      if stop.Some? {
        StoppedIsPartial(old(store.Readable()), store.Readable(), script, done, stop.value);
      } else {
        FullIsPartial(old(store.Readable()), store.Readable(), script);
      }
    }

    /** Preflight and this layer's own load; nothing is written. */
    method Prepare(s: C.Scheme, parser: Parser, q: Request) returns (evidence: Option<W.Evidence>, stage: Stage)
      ensures evidence.Some? ==> evidence == EvidenceIn(store.Readable(), s, parser, q) && PreflightPasses(q)
      ensures evidence.None? ==> stage == if PreflightPasses(q) then EvidenceLoading else Preflight
      ensures PreflightPasses(q) ==> evidence == EvidenceIn(store.Readable(), s, parser, q)
    {
      if !PreflightPasses(q) {
        return None, Preflight;
      }
      stage := EvidenceLoading;
      var ok := LoadAdjudication(store, parser, q);
      if !ok {
        return None, stage;
      }
      evidence := W.LoadEvidence(store, s, parser, q.inner);
    }

    /**
    The inner run and the adjudication of what this layer read: only the inner run appends.  The
    inner run reads for itself; that it finds the same evidence is `DecisionIsReproduced`.
    */
    method RunInner(
      ser: Serializer, s: C.Scheme, parser: Parser, q: Request, evidence: W.Evidence, b: W.Behaviour,
      faults: nat -> FaultPlan)
      returns (inner: Option<W.Receipt>, d: Option<G.WitnessDecision>, stage: Stage, ghost runs: int)
      requires store.Consistent() && store.hashing == ser.inner.h && Shares()
      requires RequestConstructed(s, parser, q) && W.Honest(ser.inner.h, b)
      requires W.EvidenceIn(store.Readable(), s, parser, q.inner) == Some(evidence) && PreflightPasses(q)
      modifies executions, store
      ensures store.Consistent() && evidence.checkpoints != []
      ensures runs == executions.count - old(executions.count)
      ensures var i := Resolve(s, q, evidence, evidence);
              && Partial(old(store.Readable()), store.Readable(), W.Script(ser.inner, i.inner, b))
              && runs <= W.Delegations(i.inner)
              && (inner.None? ==> StopsInside(ser, s, i, b, old(store.Readable()), store.Readable(), stage))
              && (inner.Some? ==>
                    && inner.value == W.ReceiptOf(ser.inner, i.inner, b)
                    && Sound(s, i, b) && d == Some(i.adjudication.decision)
                    && Full(old(store.Readable()), store.Readable(), W.Script(ser.inner, i.inner, b))
                    && runs == W.Delegations(i.inner))
    {
      W.ResolvedIsWired(store.Readable(), s, parser, q.inner, evidence);
      d := None;
      var result := witnessRunner.Run(ser.inner, s, parser, q.inner, b, faults);
      runs := executions.count - old(executions.count);
      if result.FailedAt? {
        return None, d, WitnessExecution(result.stage), runs;
      }
      stage := AdjudicationValidation;
      var decision, ok := Adjudicate(s, q, evidence);
      d := Some(decision);
      inner := if ok then Some(result.receipt) else None;
    }

    /** Decision first, then the delegated run, where this layer makes it. */
    method DecideAndDelegate(
      ser: Serializer, i: RunInputs, b: W.Behaviour, own: W.Behaviour, inner: Option<W.DelegatedReceipt>,
      ghost before: View, faults: nat -> FaultPlan)
      returns (delegated: Option<W.DelegatedReceipt>, failure: Option<Stage>)
      requires store.Consistent() && store.hashing == ser.inner.h && W.Honest(ser.inner.h, own)
      requires W.Finishes(i.inner, b) && inner == W.Delegated(i.inner, b)
      requires Full(before, store.Readable(), W.Script(ser.inner, i.inner, b))
      modifies executions, store
      ensures store.Consistent()
      ensures executions.count <= old(executions.count) + OwnDelegations(i, b)
      ensures failure.Some? ==> Partial(before, store.Readable(), Script(ser, i, b, own))
                                && StopsConcluding(ser, i, b, own, before, store.Readable(), failure.value)
      ensures failure.None? ==>
                && delegated == Delegated(i, b, own) && Finishes(i, b, own)
                && Full(before, store.Readable(), Head(ser, i, b) + OwnScript(i, b, own))
                && executions.count == old(executions.count) + OwnDelegations(i, b)
    {
      ghost var ran := store.Readable();
      ghost var innerScript, decision := W.Script(ser.inner, i.inner, b), [DecisionArtifact(ser, i)];
      var ok := PersistDecision(ser, i, faults(0));
      if !ok {
        FullThenPartial(before, ran, store.Readable(), innerScript, decision);
        UpToDecision(ser, i, b, own, before, store.Readable());
        return None, Some(AdjudicationDecisionPersistence);
      }
      FullThenFull(before, ran, store.Readable(), innerScript, decision);
      ghost var adjudicated := store.Readable();
      var failed: bool;
      delegated, failed := Delegate(i, b, own, inner, faults(1));
      if failed {
        FullThenPartial(before, adjudicated, store.Readable(), Head(ser, i, b), OwnScript(i, b, own));
        UpToDelegation(ser, i, b, own, before, store.Readable());
        return None, Some(CheckpointExecution);
      }
      FullThenFull(before, adjudicated, store.Readable(), Head(ser, i, b), OwnScript(i, b, own));
      failure := None;
    }

    /** Everything after a completed inner run and an accepted adjudication. */
    method Conclude(
      ser: Serializer, i: RunInputs, b: W.Behaviour, own: W.Behaviour, inner: W.Receipt,
      ghost before: View, faults: nat -> FaultPlan)
      returns (r: RunResult)
      requires store.Consistent() && store.hashing == ser.inner.h
      requires W.Honest(ser.inner.h, b) && W.Honest(ser.inner.h, own) && W.Finishes(i.inner, b)
      requires inner == W.ReceiptOf(ser.inner, i.inner, b) && EvidenceHeld(before, i)
      requires Full(before, store.Readable(), W.Script(ser.inner, i.inner, b))
      modifies executions, store
      ensures store.Consistent()
      ensures Partial(before, store.Readable(), Script(ser, i, b, own))
      ensures executions.count <= old(executions.count) + OwnDelegations(i, b)
      ensures r.FailedAt? ==> StopsConcluding(ser, i, b, own, before, store.Readable(), r.stage)
      ensures r.Completed? ==>
                && Full(before, store.Readable(), Script(ser, i, b, own)) && Finishes(i, b, own)
                && r.receipt == ReceiptOf(ser, i, b, own)
                && executions.count == old(executions.count) + OwnDelegations(i, b)
    {
      var delegated, failure := DecideAndDelegate(ser, i, b, own, inner.delegated, before, faults);
      if failure.Some? {
        return FailedAt(failure.value);
      }
      var final := Finish(ser, i, b, own, delegated, before, faults(2));
      if final.None? {
        return FailedAt(FinalPersistence);
      }
      FullIsPartial(before, store.Readable(), Script(ser, i, b, own));
      r := Completed(Receipt(
        final.value, MakeArtifact(ser.inner.h, final.value.finalId, ser.final(final.value)).Reference(),
        inner, delegated));
    }

    /** What follows the inner run, as the outcome of the whole call. */
    method FollowInner(
      ser: Serializer, s: C.Scheme, i: RunInputs, b: W.Behaviour, own: W.Behaviour, inner: W.Receipt,
      ghost before: View, faults: nat -> FaultPlan)
      returns (r: RunResult, ghost runs: int)
      requires store.Consistent() && store.hashing == ser.inner.h
      requires W.Honest(ser.inner.h, b) && W.Honest(ser.inner.h, own) && EvidenceHeld(before, i)
      requires Sound(s, i, b) && inner == W.ReceiptOf(ser.inner, i.inner, b)
      requires Full(before, store.Readable(), W.Script(ser.inner, i.inner, b))
      modifies executions, store
      ensures store.Consistent() && runs == W.Delegations(i.inner) + executions.count - old(executions.count)
      ensures CallLeaves(ser, s, i, b, own, before, store.Readable(), r, Some(i.adjudication.decision), runs)
    {
      r := Conclude(ser, i, b, own, inner, before, faults);
      runs := W.Delegations(i.inner) + executions.count - old(executions.count);
      ConcludedCall(ser, s, i, b, own, before, store.Readable(), r, runs);
    }

    /** Whatever came of the inner run, which executed the delegated runner `innerRuns` times. */
    method Settle(
      ser: Serializer, s: C.Scheme, i: RunInputs, b: W.Behaviour, own: W.Behaviour, inner: Option<W.Receipt>,
      stage: Stage, ghost d: Option<G.WitnessDecision>, ghost innerRuns: int, ghost before: View,
      faults: nat -> FaultPlan)
      returns (r: RunResult, ghost runs: int)
      requires store.Consistent() && store.hashing == ser.inner.h
      requires W.Honest(ser.inner.h, b) && W.Honest(ser.inner.h, own) && EvidenceHeld(before, i)
      requires Wired(s, i) && innerRuns <= W.Delegations(i.inner)
      requires Partial(before, store.Readable(), W.Script(ser.inner, i.inner, b))
      requires inner.None? ==> StopsInside(ser, s, i, b, before, store.Readable(), stage)
      requires inner.Some? ==>
                 && Sound(s, i, b) && inner.value == W.ReceiptOf(ser.inner, i.inner, b)
                 && Full(before, store.Readable(), W.Script(ser.inner, i.inner, b))
                 && innerRuns == W.Delegations(i.inner) && d == Some(i.adjudication.decision)
      modifies executions, store
      ensures store.Consistent() && runs == innerRuns + executions.count - old(executions.count)
      ensures CallLeaves(ser, s, i, b, own, before, store.Readable(), r, d, runs)
    {
      if inner.None? {
        r, runs := FailedAt(stage), innerRuns;
        InnerOnly(ser, i, b, own, before, store.Readable());
        StoppedCall(ser, s, i, b, own, before, store.Readable(), r, d, runs);
        return;
      }
      r, runs := FollowInner(ser, s, i, b, own, inner.value, before, faults);
    }

    /** The call from the inner run on, in a store that still holds what this layer read. */
    method RunLoaded(
      ser: Serializer, s: C.Scheme, parser: Parser, q: Request, evidence: W.Evidence, b: W.Behaviour, own: W.Behaviour,
      faults: nat -> FaultPlan, innerFaults: nat -> FaultPlan)
      returns (r: RunResult, d: Option<G.WitnessDecision>, ghost runs: int)
      requires store.Consistent() && store.hashing == ser.inner.h && Shares()
      requires RequestConstructed(s, parser, q) && W.Honest(ser.inner.h, b) && W.Honest(ser.inner.h, own)
      requires W.EvidenceIn(store.Readable(), s, parser, q.inner) == Some(evidence) && evidence.checkpoints != []
      requires Wired(s, Resolve(s, q, evidence, evidence))
      requires EvidenceHeld(store.Readable(), Resolve(s, q, evidence, evidence)) && PreflightPasses(q)
      modifies executions, store
      ensures store.Consistent() && runs == executions.count - old(executions.count)
      ensures CallLeaves(
                ser, s, Resolve(s, q, evidence, evidence), b, own, old(store.Readable()), store.Readable(), r, d, runs)
    {
      var i := Resolve(s, q, evidence, evidence);
      ghost var ran := store.Readable();
      var inner: Option<W.Receipt>;
      var stage: Stage;
      ghost var innerRuns: int;
      inner, d, stage, innerRuns := RunInner(ser, s, parser, q, evidence, b, innerFaults);
      r, runs := Settle(ser, s, i, b, own, inner, stage, d, innerRuns, ran, faults);
    }

    /** The call once this layer has read its evidence: others append, then the inner run begins. */
    method RunPrepared(
      ser: Serializer, s: C.Scheme, parser: Parser, q: Request, evidence: W.Evidence, b: W.Behaviour, own: W.Behaviour,
      meanwhile: seq<Artifact>, faults: nat -> FaultPlan, innerFaults: nat -> FaultPlan, otherFaults: FaultPlan)
      returns (r: RunResult, d: Option<G.WitnessDecision>, ghost ran: View, ghost runs: int)
      requires store.Consistent() && store.hashing == ser.inner.h && Shares()
      requires RequestConstructed(s, parser, q) && W.Honest(ser.inner.h, b) && W.Honest(ser.inner.h, own)
      requires WellFormedScript(ser.inner.h, meanwhile) && EvidenceIn(store.Readable(), s, parser, q) == Some(evidence)
      requires PreflightPasses(q)
      modifies executions, store
      ensures store.Consistent() && Partial(old(store.Readable()), ran, meanwhile)
      ensures runs == executions.count - old(executions.count)
      ensures BothLoad(s, parser, q, old(store.Readable()), ran)
      ensures CallLeaves(ser, s, InputsOf(s, parser, q, old(store.Readable()), ran), b, own, ran, store.Readable(),
                         r, d, runs)
    {
      ghost var before := store.Readable();
      Interfere(meanwhile, otherFaults);
      ran := store.Readable();
      PartialExtends(before, ran, meanwhile);
      DecisionIsReproduced(s, parser, q, before, ran);
      EvidenceIsHeld(s, parser, q, before, ran);
      r, d, runs := RunLoaded(ser, s, parser, q, evidence, b, own, faults, innerFaults);
    }

    /**
    One adjudicated call; `meanwhile` is what other processes append after its own load, and `ran`
    the store the inner run then starts from.  Without readable evidence nothing is appended.
    Otherwise, whatever stops it, the call adds a prefix of its script.  A completed call adjudicated
    the decision `d`, which it validated on what it had read itself, and which is exactly what the
    store holds as the run's witness decision; it delegated exactly once if adjudication executed and
    not at all if it abstained; decision and inner final are retrievable.
    */
    method Run(
      ser: Serializer, s: C.Scheme, parser: Parser, q: Request, b: W.Behaviour, own: W.Behaviour,
      meanwhile: seq<Artifact>, faults: nat -> FaultPlan, innerFaults: nat -> FaultPlan, otherFaults: FaultPlan)
      returns (r: RunResult, d: Option<G.WitnessDecision>, ghost ran: View, ghost runs: int)
      requires store.Consistent() && store.hashing == ser.inner.h && Shares()
      requires RequestConstructed(s, parser, q) && W.Honest(ser.inner.h, b) && W.Honest(ser.inner.h, own)
      requires WellFormedScript(ser.inner.h, meanwhile)
      modifies executions, store
      ensures store.Consistent() && Partial(old(store.Readable()), ran, meanwhile)
      ensures runs == executions.count - old(executions.count)
      ensures !PreflightPasses(q) || EvidenceIn(old(store.Readable()), s, parser, q).None? ==>
                && r == FailedAt(if PreflightPasses(q) then EvidenceLoading else Preflight)
                && store.Contents() == old(store.Contents()) && runs == 0 && d.None?
      ensures PreflightPasses(q) && EvidenceIn(old(store.Readable()), s, parser, q).Some? ==>
                && BothLoad(s, parser, q, old(store.Readable()), ran)
                && CallLeaves(ser, s, InputsOf(s, parser, q, old(store.Readable()), ran), b, own, ran, store.Readable(),
                              r, d, runs)
    {
      ran, runs := store.Readable(), 0;
      d := None;
      NothingAppended(ran, meanwhile);
      var evidence, stage := Prepare(s, parser, q);
      if evidence.None? {
        r := FailedAt(stage);
        return;
      }
      r, d, ran, runs := RunPrepared(
        ser, s, parser, q, evidence.value, b, own, meanwhile, faults, innerFaults, otherFaults);
    }
  }

  /** The document the inner run stores as the run's witness decision. */
  function DecisionDocument(ser: Serializer, run: string, d: G.WitnessDecision): Artifact {
    MakeArtifact(ser.inner.h, Id(run, WitnessDecision), ser.inner.decision(d))
  }

  /** What a completed call leaves behind and returns. */
  ghost predicate Concluded(
    ser: Serializer, s: C.Scheme, i: RunInputs, b: W.Behaviour, own: W.Behaviour, ran: View, now: View, receipt: Receipt)
  {
    && Full(ran, now, Script(ser, i, b, own)) && Finishes(i, b, own) && receipt == ReceiptOf(ser, i, b, own)
    && FinalConstructed(receipt.final) && ReceiptConstructed(receipt) && NamesItsOutcome(s, i, b, own, receipt)
    && G.ValidWitnesses(s, i.inner.witnesses) && G.ValidAdjudication(i.adjudication)
    && Stored(now, W.FinalArtifact(ser.inner, i.inner, b)) && Stored(now, DecisionArtifact(ser, i))
  }

  /**
  What one call comes to: a prefix of its script, at most one delegated execution (`runs`), and if it
  completed, the decision `d` it adjudicated is exactly what the store holds as the run's own.
  */
  ghost predicate CallLeaves(
    ser: Serializer, s: C.Scheme, i: RunInputs, b: W.Behaviour, own: W.Behaviour, ran: View, now: View,
    r: RunResult, d: Option<G.WitnessDecision>, runs: int)
  {
    && Partial(ran, now, Script(ser, i, b, own)) && runs <= 1
    && (r.FailedAt? ==> StopsAt(ser, s, i, b, own, ran, now, r.stage))
    && (r.Completed? ==>
          && Concluded(ser, s, i, b, own, ran, now, r.receipt) && runs == Delegations(i)
          && d == Some(i.adjudication.decision) && Stored(now, DecisionDocument(ser, i.inner.run, d.value)))
  }

  lemma StoppedCall(
    ser: Serializer, s: C.Scheme, i: RunInputs, b: W.Behaviour, own: W.Behaviour, ran: View, now: View,
    r: RunResult, d: Option<G.WitnessDecision>, runs: int)
    requires Partial(ran, now, Script(ser, i, b, own)) && r.FailedAt?
    requires Wired(s, i) && runs <= W.Delegations(i.inner)
    requires StopsAt(ser, s, i, b, own, ran, now, r.stage)
    ensures CallLeaves(ser, s, i, b, own, ran, now, r, d, runs)
  {
    LayersDelegateOnce(i, b);
  }

  /** What a call has established once its inner run completed and its adjudication was accepted. */
  ghost predicate Sound(s: C.Scheme, i: RunInputs, b: W.Behaviour) {
    && Wired(s, i) && W.PreflightPassed(i.inner) && W.Finishes(i.inner, b)
    && G.ValidWitnesses(s, i.inner.witnesses) && G.ValidAdjudication(i.adjudication)
  }

  lemma ConcludedCall(
    ser: Serializer, s: C.Scheme, i: RunInputs, b: W.Behaviour, own: W.Behaviour, ran: View, now: View,
    r: RunResult, runs: int)
    requires Sound(s, i, b) && Partial(ran, now, Script(ser, i, b, own))
    requires runs <= W.Delegations(i.inner) + OwnDelegations(i, b)
    requires r.FailedAt? ==> StopsConcluding(ser, i, b, own, ran, now, r.stage)
    requires r.Completed? ==>
               && Full(ran, now, Script(ser, i, b, own)) && Finishes(i, b, own)
               && r.receipt == ReceiptOf(ser, i, b, own) && runs == W.Delegations(i.inner) + OwnDelegations(i, b)
    ensures CallLeaves(ser, s, i, b, own, ran, now, r, Some(i.adjudication.decision), runs)
  {
    LayersDelegateOnce(i, b);
    if r.Completed? {
      RecordsAreConstructed(ser, s, i, b, own);
      FinalNamesTheOutcome(ser, s, i, b, own);
      InnerIsKept(ser, i, b, own, ran, now);
    }
  }

  lemma UpToDelegation(
    ser: Serializer, i: RunInputs, b: W.Behaviour, own: W.Behaviour, before: View, now: View)
    requires Partial(before, now, Head(ser, i, b) + OwnScript(i, b, own))
    ensures Partial(before, now, Script(ser, i, b, own))
  {
    PartialOfLonger(before, now, Head(ser, i, b) + OwnScript(i, b, own),
                    if Finishes(i, b, own) then [FinalArtifact(ser, i, b, own)] else []);
  }

  lemma UpToDecision(
    ser: Serializer, i: RunInputs, b: W.Behaviour, own: W.Behaviour, before: View, now: View)
    requires Partial(before, now, Head(ser, i, b))
    ensures Partial(before, now, Script(ser, i, b, own))
  {
    PartialOfLonger(before, now, Head(ser, i, b), OwnScript(i, b, own));
    UpToDelegation(ser, i, b, own, before, now);
  }

  lemma InnerOnly(ser: Serializer, i: RunInputs, b: W.Behaviour, own: W.Behaviour, before: View, now: View)
    requires Partial(before, now, W.Script(ser.inner, i.inner, b))
    ensures Partial(before, now, Script(ser, i, b, own))
  {
    PartialOfLonger(before, now, W.Script(ser.inner, i.inner, b), [DecisionArtifact(ser, i)]);
    UpToDecision(ser, i, b, own, before, now);
  }

  /** Adjudication adds to what the inner run stored and takes nothing away. */
  lemma InnerIsKept(
    ser: Serializer, i: RunInputs, b: W.Behaviour, own: W.Behaviour, before: View, now: View)
    requires W.Finishes(i.inner, b) && Full(before, now, Script(ser, i, b, own))
    ensures AllStored(now, W.Script(ser.inner, i.inner, b)) && Stored(now, DecisionArtifact(ser, i))
    ensures Stored(now, DecisionDocument(ser, i.inner.run, i.inner.decision))
    ensures Stored(now, W.FinalArtifact(ser.inner, i.inner, b))
  {
    var inner, decision := W.Script(ser.inner, i.inner, b), [DecisionArtifact(ser, i)];
    FullIsStored(before, now, Script(ser, i, b, own));
    PartsAreStored(ser, i, b, own, now);
    W.ScriptIsStored(ser.inner, i.inner, b, now);
  }

  lemma PartsAreStored(ser: Serializer, i: RunInputs, b: W.Behaviour, own: W.Behaviour, v: View)
    requires AllStored(v, Script(ser, i, b, own))
    ensures AllStored(v, W.Script(ser.inner, i.inner, b)) && AllStored(v, OwnScript(i, b, own))
    ensures Stored(v, DecisionArtifact(ser, i))
    ensures Finishes(i, b, own) ==> Stored(v, FinalArtifact(ser, i, b, own))
  {
    var rest := if Finishes(i, b, own) then [FinalArtifact(ser, i, b, own)] else [];
    AllStoredParts(v, Head(ser, i, b) + OwnScript(i, b, own), rest);
    AllStoredParts(v, Head(ser, i, b), OwnScript(i, b, own));
    AllStoredParts(v, W.Script(ser.inner, i.inner, b), [DecisionArtifact(ser, i)]);
    assert Stored(v, [DecisionArtifact(ser, i)][0]);
    assert rest != [] ==> Stored(v, rest[0]);
  }

  /** The documents the final verification compares, and the references it looks up. */
  function Verified(ser: Serializer, i: RunInputs, final: Artifact): seq<Artifact> {
    [final, i.inner.snapshots.corpus, DecisionArtifact(ser, i)]
  }

  function VerifiedRefs(ser: Serializer, i: RunInputs, b: W.Behaviour): seq<Ref> {
    i.inner.witnesses.corpus.attestationRefs
    + [i.registryDocument.Reference(), i.policyDocument.Reference(), i.adjudication.adjudication.reference,
       W.FinalArtifact(ser.inner, i.inner, b).Reference()]
  }

  /** What the final verification has read back, when it succeeds, is exactly this. */
  lemma VerificationReadsBack(ser: Serializer, i: RunInputs, b: W.Behaviour, final: Artifact, v: View)
    ensures AllStored(v, Verified(ser, i, final)) && AllHeld(v, VerifiedRefs(ser, i, b)) <==>
            && Stored(v, final) && Stored(v, DecisionArtifact(ser, i)) && Stored(v, i.inner.snapshots.corpus)
            && Held(v, i.registryDocument.Reference()) && Held(v, i.policyDocument.Reference())
            && Held(v, i.adjudication.adjudication.reference)
            && Held(v, W.FinalArtifact(ser.inner, i.inner, b).Reference())
            && AllHeld(v, i.inner.witnesses.corpus.attestationRefs)
  {
    var documents, first := Verified(ser, i, final), i.inner.witnesses.corpus.attestationRefs;
    var second := [i.registryDocument.Reference(), i.policyDocument.Reference(), i.adjudication.adjudication.reference,
                   W.FinalArtifact(ser.inner, i.inner, b).Reference()];
    assert documents[0] == final && documents[1] == i.inner.snapshots.corpus && documents[2] == DecisionArtifact(ser, i);
    if AllStored(v, documents) {
      assert Stored(v, documents[0]) && Stored(v, documents[1]) && Stored(v, documents[2]);
    }
    assert VerifiedRefs(ser, i, b) == first + second;
    W.AllHeldTogether(v, first, second);
    FourHeld(v, second);
  }

  lemma FourHeld(v: View, refs: seq<Ref>)
    requires |refs| == 4
    ensures AllHeld(v, refs) <==> Held(v, refs[0]) && Held(v, refs[1]) && Held(v, refs[2]) && Held(v, refs[3])
  {
  }

  lemma VerificationSucceeds(
    ser: Serializer, i: RunInputs, b: W.Behaviour, own: W.Behaviour, before: View, now: View)
    requires W.Honest(ser.inner.h, b) && W.Honest(ser.inner.h, own) && Finishes(i, b, own)
    requires Full(before, now, Script(ser, i, b, own)) && EvidenceHeld(before, i)
    ensures AllStored(now, Verified(ser, i, FinalArtifact(ser, i, b, own)))
    ensures AllHeld(now, VerifiedRefs(ser, i, b))
    ensures Delegated(i, b, own).Some? ==> Held(now, Delegated(i, b, own).value.finalRef)
  {
    FullIsStored(before, now, Script(ser, i, b, own));
    PartsAreStored(ser, i, b, own, now);
    InnerIsKept(ser, i, b, own, before, now);
    EvidenceHeldStays(before, now, i);
    RefsAreHeld(ser, i, b, now);
    if Delegated(i, b, own).Some? {
      DelegatedFinalIsHeld(ser, i, b, own, now);
    }
  }

  lemma RefsAreHeld(ser: Serializer, i: RunInputs, b: W.Behaviour, now: View)
    requires EvidenceHeld(now, i) && Stored(now, W.FinalArtifact(ser.inner, i.inner, b))
    ensures Stored(now, i.inner.snapshots.corpus) && AllHeld(now, VerifiedRefs(ser, i, b))
  {
    var documents := [i.inner.snapshots.corpus, i.registryDocument, i.policyDocument];
    assert Stored(now, documents[0]) && Stored(now, documents[1]) && Stored(now, documents[2]);
  }

  /** The final of whichever layer delegated can be retrieved by its reference. */
  lemma DelegatedFinalIsHeld(ser: Serializer, i: RunInputs, b: W.Behaviour, own: W.Behaviour, v: View)
    requires W.Honest(ser.inner.h, b) && W.Honest(ser.inner.h, own) && Finishes(i, b, own)
    requires AllStored(v, Script(ser, i, b, own)) && Delegated(i, b, own).Some?
    ensures Held(v, Delegated(i, b, own).value.finalRef)
  {
    PartsAreStored(ser, i, b, own, v);
    if W.Delegated(i.inner, b).Some? {
      W.DelegatedFinalIsHeld(ser.inner, i.inner, b, v);
    } else {
      var k :| 0 <= k < |own.script| && own.script[k].Reference() == own.receipt.value.finalRef;
      assert Stored(v, own.script[k]);
    }
  }

  /** Every reference of the final leads to the document of its kind. */
  ghost predicate Grounded(ser: Serializer, i: RunInputs, b: W.Behaviour, v: View, f: FinalManifest) {
    && W.Resolves(v, f.corpusRef, i.inner.snapshots.corpus)
    && W.Resolves(v, f.witnessRegistryRef, i.inner.snapshots.registry)
    && W.Resolves(v, f.witnessPolicyRef, i.inner.snapshots.policy)
    && W.Resolves(v, f.adjudicatorRegistryRef, i.registryDocument)
    && W.Resolves(v, f.adjudicationPolicyRef, i.policyDocument)
    && f.adjudicationRef == i.adjudication.adjudication.reference && Held(v, f.adjudicationRef)
    && W.Resolves(v, f.witnessFinalRef, W.FinalArtifact(ser.inner, i.inner, b))
    && W.Resolves(v, f.adjudicationDecisionRef,
                  MakeArtifact(ser.inner.h, Id(i.inner.run, AdjudicationDecision), ser.decision(i.decision)))
    && f.attestationRefs == i.inner.witnesses.corpus.attestationRefs && AllHeld(v, f.attestationRefs)
    && (f.checkpointFinalRef.Some? ==> Held(v, f.checkpointFinalRef.value))
    && f.experimentId == i.inner.log.plan.experimentId && f.experimentVersion == i.inner.log.plan.experimentVersion
    && f.contentIds == i.inner.log.plan.contentIds
  }

  /** The snapshots are the documents of the records the inputs were made of. */
  ghost predicate Documented(i: RunInputs) {
    && i.inner.snapshots.corpus.Reference() == Unversioned(i.inner.log.corpus.reference)
    && i.inner.snapshots.registry.Reference() == Unversioned(i.inner.witnesses.registry.reference)
    && i.inner.snapshots.policy.Reference() == Unversioned(i.inner.witnesses.policy.reference)
    && i.registryDocument.Reference() == Unversioned(i.adjudication.adjudicators.reference)
    && i.policyDocument.Reference() == Unversioned(i.adjudication.policy.reference)
  }

  /** The final can be followed to everything it names, the inner final included. */
  lemma FinalLeadsEverywhere(
    ser: Serializer, i: RunInputs, b: W.Behaviour, own: W.Behaviour, before: View, now: View)
    requires W.Honest(ser.inner.h, b) && W.Honest(ser.inner.h, own) && Documented(i) && EvidenceHeld(before, i)
    requires Finishes(i, b, own) && Full(before, now, Script(ser, i, b, own))
    ensures Grounded(ser, i, b, now, ReceiptOf(ser, i, b, own).final) && Stored(now, FinalArtifact(ser, i, b, own))
  {
    VerificationSucceeds(ser, i, b, own, before, now);
    InnerIsKept(ser, i, b, own, before, now);
    EvidenceHeldStays(before, now, i);
    SnapshotsAreStored(i, now);
    FullIsStored(before, now, Script(ser, i, b, own));
    PartsAreStored(ser, i, b, own, now);
  }

  /** So it is for every call that concluded, whatever other processes appended between its loads. */
  lemma FinalIsGrounded(
    ser: Serializer, s: C.Scheme, parser: Parser, q: Request, before: View, ran: View,
    b: W.Behaviour, own: W.Behaviour, now: View, receipt: Receipt)
    requires W.Honest(ser.inner.h, b) && W.Honest(ser.inner.h, own)
    requires BothLoad(s, parser, q, before, ran) && Extends(before, ran)
    requires Concluded(ser, s, InputsOf(s, parser, q, before, ran), b, own, ran, now, receipt)
    ensures Grounded(ser, InputsOf(s, parser, q, before, ran), b, now, receipt.final)
    ensures Stored(now, FinalArtifact(ser, InputsOf(s, parser, q, before, ran), b, own))
  {
    EvidenceIsHeld(s, parser, q, before, ran);
    FinalLeadsEverywhere(ser, InputsOf(s, parser, q, before, ran), b, own, ran, now);
  }

  lemma SnapshotsAreStored(i: RunInputs, v: View)
    requires EvidenceHeld(v, i)
    ensures Stored(v, i.inner.snapshots.corpus) && Stored(v, i.inner.snapshots.registry)
    ensures Stored(v, i.inner.snapshots.policy) && Stored(v, i.registryDocument) && Stored(v, i.policyDocument)
  {
    var inner := [i.inner.snapshots.corpus, i.inner.snapshots.registry, i.inner.snapshots.policy];
    var outer := [i.inner.snapshots.corpus, i.registryDocument, i.policyDocument];
    assert Stored(v, inner[0]) && Stored(v, inner[1]) && Stored(v, inner[2]);
    assert Stored(v, outer[1]) && Stored(v, outer[2]);
  }
}
