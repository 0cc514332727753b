/**
One corpus document that is accepted at two levels, and what goes wrong when the lower one runs.

The document is a revocation-bound corpus and, with more fields, a checkpoint-bound corpus.  All
records satisfy their constructors, and both persist calls are legal and accepted, whatever the
digest functions are.
*/
module PublicationExample {
  import opened Artifacts
  import opened ArtifactStore
  import opened AppendScript
  import opened StoredRecords
  import opened Governance
  import opened EventHistory
  import opened P = Publication
  import opened PublicationRuns
  import L = RevocationLedger
  import C = CheckpointLog

  const CREDENTIALS := "credentials"
  const LEDGER_POLICY := "ledger-policy"
  const LEDGER := "ledger"
  const LOG_POLICY := "log-policy"
  const LOG := "log"
  const CHECKPOINT := C.CHECKPOINT_PREFIX + "0"
  const REVOCATION_CORPUS := "revocation-corpus"
  const SHARED_CORPUS := "extended-corpus"
  const ISSUERS := "issuers"
  const ADJUDICATORS := "adjudicators"
  const CREDENTIAL_POLICY := "credential-policy"
  const WITNESS_RECORDS := "witness-records"
  const ATTESTATION := ATTESTATION_PREFIX + "x"
  const ADJUDICATION := ADJUDICATION_PREFIX + "x"

  /** Each document's payload is one byte of its own. */
  function Payload(id: string): Bytes {
    if id == CREDENTIALS then [1]
    else if id == LEDGER_POLICY then [2]
    else if id == LEDGER then [3]
    else if id == LOG_POLICY then [4]
    else if id == LOG then [5]
    else if id == CHECKPOINT then [6]
    else if id == REVOCATION_CORPUS then [7]
    else if id == SHARED_CORPUS then [8]
    else if id == ISSUERS then [9]
    else if id == ADJUDICATORS then [10]
    else if id == CREDENTIAL_POLICY then [11]
    else if id == ATTESTATION then [12]
    else if id == ADJUDICATION then [13]
    else [14]
  }

  function Document(h: Hashing, id: string): Artifact {
    MakeArtifact(h, id, Payload(id))
  }

  function Versioned(h: Hashing, id: string): VersionedRef {
    VersionedRef(id, "1", h.blob(Payload(id)))
  }

  function ExampleScheme(h: Hashing): C.Scheme {
    C.Scheme(h, (c: C.Checkpoint) => Payload(CHECKPOINT), (refs: seq<Ref>) => [15])
  }

  // ----- the records -----

  function RevocationView(h: Hashing, id: string): L.RevocationCorpus {
    L.RevocationCorpus(
      Versioned(h, id), ["a", "b"], Versioned(h, CREDENTIALS), Versioned(h, LEDGER_POLICY), Versioned(h, LEDGER))
  }

  function CheckpointView(h: Hashing): C.CheckpointCorpus {
    C.CheckpointCorpus(
      Versioned(h, SHARED_CORPUS), ["a", "b"], Versioned(h, REVOCATION_CORPUS), Versioned(h, LOG_POLICY),
      Versioned(h, LOG), Document(h, CHECKPOINT).Reference())
  }

  function ExampleLedger(h: Hashing): L.Ledger {
    L.Ledger(
      Versioned(h, LEDGER), Frozen, Versioned(h, CREDENTIALS), Versioned(h, ISSUERS), Versioned(h, LEDGER_POLICY), [])
  }

  function ExampleCheckpoint(h: Hashing): C.Checkpoint {
    C.Checkpoint(CHECKPOINT, 0, Versioned(h, REVOCATION_CORPUS), Versioned(h, LEDGER), [], 0, h.blob([15]), None, 1)
  }

  function ExampleLog(h: Hashing): C.Log {
    C.Log(
      Versioned(h, LOG), Frozen, Versioned(h, LOG_POLICY), [Document(h, CHECKPOINT).Reference()],
      Document(h, CHECKPOINT).Reference(), 2)
  }

  function ExamplePlan(h: Hashing): Plan {
    Plan("experiment", "1", Frozen, Versioned(h, SHARED_CORPUS), ["a", "b"])
  }

  function LedgerInputs(h: Hashing): L.Inputs {
    L.Inputs(
      ExamplePlan(h), RevocationView(h, SHARED_CORPUS),
      AdjudicatorRegistry(
        Versioned(h, ADJUDICATORS), Lifecycle.Accepted, [Adjudicator("x", "1", WitnessConflictAdjudicator)]),
      IssuerRegistry(Versioned(h, ISSUERS), Lifecycle.Accepted, [Issuer("issuer", "1", true, {"credential"})]),
      CredentialPolicy(
        Versioned(h, CREDENTIAL_POLICY), Lifecycle.Accepted, Versioned(h, ISSUERS), Versioned(h, ADJUDICATORS),
        "credential", true),
      L.RevocationPolicy(
        Versioned(h, LEDGER_POLICY), Lifecycle.Accepted, {Active, Suspended, Revoked}, true, {Suspended, Revoked}),
      ExampleLedger(h), [ExampleAttestation(h)], NoConflict(h), [], 3)
  }

  function ExampleAttestation(h: Hashing): Attestation {
    Attestation(
      Document(h, ATTESTATION).Reference(), "x", "1", "credential", "issuer", "1", [WitnessConflictAdjudicator],
      Active, 0, 9)
  }

  /** An adjudication that was not required. */
  function NoConflict(h: Hashing): Adjudication {
    var witnesses := Versioned(h, WITNESS_RECORDS);
    Adjudication(
      Document(h, ADJUDICATION).Reference(), witnesses, witnesses, witnesses, Versioned(h, ADJUDICATORS), witnesses,
      Document(h, WITNESS_RECORDS).Reference(), NotRequired, None, None, None, [], [], "no witness saw another head", 0)
  }

  function LogInputs(h: Hashing): C.Inputs {
    C.Inputs(
      ExamplePlan(h), CheckpointView(h), C.CheckpointPolicy(Versioned(h, LOG_POLICY), Lifecycle.Accepted), ExampleLog(h),
      ExampleLedger(h), [ExampleCheckpoint(h)], 3)
  }

  function LowLevel(h: Hashing): Level {
    Revocations(CredentialCorpus(Versioned(h, CREDENTIALS), ["a", "b"]), LedgerInputs(h))
  }

  function HighLevel(h: Hashing): Level {
    Checkpoints(RevocationView(h, REVOCATION_CORPUS), RevocationView(h, SHARED_CORPUS), LogInputs(h))
  }

  function LowDocuments(h: Hashing): Documents {
    Documents(
      Document(h, CREDENTIALS), [Document(h, LEDGER_POLICY), Document(h, LEDGER)], Document(h, SHARED_CORPUS))
  }

  function HighDocuments(h: Hashing): Documents {
    Documents(
      Document(h, REVOCATION_CORPUS), [Document(h, LOG_POLICY), Document(h, CHECKPOINT), Document(h, LOG)],
      Document(h, SHARED_CORPUS))
  }

  // ----- reading the documents -----

  function KindOf(a: Artifact): DocumentKind {
    if a.id == LEDGER_POLICY then RevocationPolicyDocument
    else if a.id == LEDGER then LedgerDocument
    else if a.id == LOG_POLICY then CheckpointPolicyDocument
    else if a.id == LOG then LogDocument
    else if a.id == CHECKPOINT then CheckpointDocument
    else CorpusDocument
  }

  function ExampleParser(h: Hashing): Parser {
    Parser(
      KindOf, (a: Artifact) => None,
      (a: Artifact) => if a.id == CHECKPOINT then Some(ExampleCheckpoint(h)) else None,
      (a: Artifact) => None, (a: Artifact) => None,
      (a: Artifact) => if a.id == LEDGER then Some(ExampleLedger(h)) else None,
      (a: Artifact) => if a.id == LOG then Some(ExampleLog(h)) else None,
      (a: Artifact) => if a.id in {REVOCATION_CORPUS, SHARED_CORPUS} then Some(RevocationView(h, a.id)) else None,
      (a: Artifact) => if a.id == SHARED_CORPUS then Some(CheckpointView(h)) else None,
      (a: Artifact) => None, (a: Artifact) => None)
  }

  /** The store holds what the two documents extend, and both calls are about to start. */
  function ExampleStart(h: Hashing): State {
    State(
      map[CREDENTIALS := Document(h, CREDENTIALS), REVOCATION_CORPUS := Document(h, REVOCATION_CORPUS)],
      [Process(LowLevel(h), LowDocuments(h), true, Waiting), Process(HighLevel(h), HighDocuments(h), true, Waiting)])
  }

  // ----- both calls are legal and accepted -----

  lemma NamesDiffer()
    ensures |CREDENTIALS| == 11 && |LEDGER_POLICY| == 13 && |LEDGER| == 6 && |LOG_POLICY| == 10 && |LOG| == 3
    ensures |CHECKPOINT| == 46 && |REVOCATION_CORPUS| == 17 && |SHARED_CORPUS| == 15
  {
  }

  lemma LowIsConstructed(h: Hashing)
    ensures Constructed(ExampleScheme(h), LowLevel(h))
  {
    AttestationIsConstructed(h);
    NoConflictIsConstructed(h);
  }

  lemma AttestationIsConstructed(h: Hashing)
    ensures ExampleAttestation(h).Constructed()
  {
  }

  lemma NoConflictIsConstructed(h: Hashing)
    ensures NoConflict(h).Constructed()
  {
  }

  lemma LowIsAccepted(h: Hashing)
    ensures P.Accepted(ExampleScheme(h), LowLevel(h))
  {
    var v := LedgerInputs(h);
    assert L.References(v.events) == [];
    assert v.attestations[0].adjudicatorId == "x";
    forall r | r in v.adjudicators.adjudicators ensures L.ByAdjudicator(v.attestations, r.id).Some? {
      assert r.id == v.attestations[0].adjudicatorId;
    }
  }

  lemma HighIsAccepted(h: Hashing)
    ensures Constructed(ExampleScheme(h), HighLevel(h)) && P.Accepted(ExampleScheme(h), HighLevel(h))
  {
    var s, v := ExampleScheme(h), LogInputs(h);
    assert s.References(v.checkpoints) == v.log.checkpointRefs;
  }

  lemma LowSerializes(h: Hashing)
    ensures Serializes(ExampleScheme(h), ExampleParser(h), LowLevel(h), LowDocuments(h))
  {
    NamesDiffer();
    var s, level, docs := ExampleScheme(h), LowLevel(h), LowDocuments(h);
    assert L.References(level.ledgerInputs.events) == [];
    assert ArtifactRefs(docs.members) == MemberRefs(s, level);
  }

  lemma HighSerializes(h: Hashing)
    ensures Serializes(ExampleScheme(h), ExampleParser(h), HighLevel(h), HighDocuments(h))
  {
    NamesDiffer();
    var s, level, docs := ExampleScheme(h), HighLevel(h), HighDocuments(h);
    assert s.References(level.logInputs.checkpoints) == [Document(h, CHECKPOINT).Reference()];
    assert ArtifactRefs(docs.members) == MemberRefs(s, level);
  }

  lemma LowCanRun(h: Hashing)
    ensures Runnable(ExampleStart(h).view, LowDocuments(h))
  {
    NamesDiffer();
    var v, docs := ExampleStart(h).view, LowDocuments(h);
    var script := docs.Script();
    assert script[..0] == [] && script[..1] == [docs.members[0]] && script[..2] == [docs.members[0]] + [docs.members[1]];
    InsertedSnoc(v, [], docs.members[0]);
    InsertedSnoc(v, [docs.members[0]], docs.members[1]);
  }

  lemma LowIsLegal(h: Hashing)
    ensures Legal(ExampleScheme(h), ExampleParser(h), ExampleStart(h).processes[0])
  {
    LowIsConstructed(h);
    LowIsAccepted(h);
    LowSerializes(h);
  }

  lemma HighIsLegal(h: Hashing)
    ensures Legal(ExampleScheme(h), ExampleParser(h), ExampleStart(h).processes[1])
  {
    HighIsAccepted(h);
    HighSerializes(h);
  }

  lemma AllWait(h: Hashing)
    ensures forall i :: 0 <= i < |ExampleStart(h).processes| ==> ExampleStart(h).processes[i].phase == Waiting
  {
  }

  lemma BothLegal(s: C.Scheme, r: Parser, ps: seq<Process>)
    requires |ps| == 2 && Legal(s, r, ps[0]) && Legal(s, r, ps[1])
    ensures AllLegal(s, r, ps)
  {
    forall i | 0 <= i < |ps| ensures Legal(s, r, ps[i]) {
      if i == 0 {
        assert ps[i] == ps[0];
      } else {
        assert i == 1;
      }
    }
  }

  lemma ExampleIsInitial(h: Hashing)
    ensures Initial(ExampleScheme(h), ExampleParser(h), ExampleStart(h))
  {
    LowIsLegal(h);
    HighIsLegal(h);
    BothLegal(ExampleScheme(h), ExampleParser(h), ExampleStart(h).processes);
    AllWait(h);
  }

  lemma HighIsMatching(h: Hashing)
    ensures MatchingLoad(ExampleScheme(h), ExampleParser(h), HighLevel(h), HighDocuments(h))
  {
    HighIsAccepted(h);
    HighSerializes(h);
    ValidMatches(ExampleScheme(h), HighLevel(h));
  }

  /** The lower call neither finds nor stores the log, which the checkpoint load compares byte for byte. */
  lemma LogIsNowhere(h: Hashing)
    ensures Document(h, LOG) in Snapshots(HighLevel(h), HighDocuments(h))
    ensures !Stored(ExampleStart(h).view, Document(h, LOG)) && Document(h, LOG) !in LowDocuments(h).Script()
  {
    NamesDiffer();
    assert Snapshots(HighLevel(h), HighDocuments(h))[2] == Document(h, LOG);
  }

  /**
  Both calls are legal and accepted and publish one document.  The revocation-level call alone can
  publish it, and then the document is in the store and the checkpoint load fails, whatever evidence
  one hopes for.
  */
  lemma LowerLevelMayPublishFirst(h: Hashing)
    ensures Initial(ExampleScheme(h), ExampleParser(h), ExampleStart(h))
    ensures var s, r, calls := ExampleScheme(h), ExampleParser(h), ExampleStart(h).processes;
            && |calls| == 2 && calls[0].accepted && calls[1].accepted
            && calls[0].level.Revocations? && calls[1].level.Checkpoints? && calls[0].docs.corpus == calls[1].docs.corpus
            && MatchingLoad(s, r, calls[1].level, calls[1].docs) && Sized(calls[1].level, calls[1].docs)
            && !PresenceMeansLoad(s, r, ExampleStart(h), calls[1].level, calls[1].docs)
  {
    ExampleIsInitial(h);
    HighIsMatching(h);
    LowCanRun(h);
    LogIsNowhere(h);
    FailsAlone(ExampleScheme(h), ExampleParser(h), ExampleStart(h), 0, HighLevel(h), HighDocuments(h), Document(h, LOG));
  }

  /** A call that leaves a snapshot of the load missing can publish its document while the load fails. */
  lemma FailsAlone(s: C.Scheme, r: Parser, start: State, i: nat, level: Level, docs: Documents, a: Artifact)
    requires Initial(s, r, start) && i < |start.processes| && SameDocument(start.processes[i], docs)
    requires Runnable(start.view, start.processes[i].docs) && Sized(level, docs) && a in Snapshots(level, docs)
    requires !Stored(start.view, a) && a !in start.processes[i].docs.Script()
    ensures !PresenceMeansLoad(s, r, start, level, docs)
  {
    InitialWaits(s, r, start);
    var steps, trace := PublishedAlone(start, i);
    var n: nat := |trace| - 1;
    MissingSnapshotFails(trace[n].view, s, r, level, docs, a);
  }
}
