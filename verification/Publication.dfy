/**
Publishing a governed corpus: validate, store the members, store the corpus document last.

Four levels publish this way: the revocation ledger, its checkpoint log, the witnesses of its head,
and the adjudication of their conflicts.  Corpus records nest: one document read at several levels
is several records.  Only the adjudication level stores members of the level below again.  `Persist`
is one such call on one store; `PublicationRuns` runs any number of them side by side.
*/
module Publication {
  import opened Artifacts
  import opened ArtifactStore
  import opened AppendScript
  import opened StoredRecords
  import opened Governance
  import opened EventHistory
  import L = RevocationLedger
  import C = CheckpointLog
  import G = WitnessGate

  /** The canonical artifacts behind one call. */
  datatype Documents = Documents(predecessor: Artifact, members: seq<Artifact>, corpus: Artifact) {
    function Script(): seq<Artifact> {
      members + [corpus]
    }
  }

  /** The credential-bound corpus a revocation corpus extends. */
  datatype CredentialCorpus = CredentialCorpus(reference: VersionedRef, contentIds: seq<string>)

  /**
  What is published, with the predecessor record and, for checkpoints, the document's own revocation
  fields.  The adjudication level takes the witness records along.
  */
  datatype Level =
    | Revocations(credentialCorpus: CredentialCorpus, ledgerInputs: L.Inputs)
    | Checkpoints(revocationCorpus: L.RevocationCorpus, own: L.RevocationCorpus, logInputs: C.Inputs)
    | Witnesses(checkpointCorpus: C.CheckpointCorpus, witnessInputs: G.WitnessInputs)
    | Adjudications(witnessCorpus: G.WitnessCorpus, witnessInputs: G.WitnessInputs, records: AdjudicationRecords)

  datatype AdjudicationRecords = AdjudicationRecords(
    corpus: G.AdjudicationCorpus, adjudicators: AdjudicatorRegistry, policy: G.AdjudicationPolicy,
    adjudication: Adjudication)

  /** The adjudication is of the decision the same call's witnesses lead to, at the same time. */
  function AdjudicationInputsOf(v: G.WitnessInputs, a: AdjudicationRecords): G.AdjudicationInputs {
    G.AdjudicationInputs(
      v.plan, a.corpus, v.registry, v.policy, a.adjudicators, a.policy, G.WitnessDecisionOf(v), a.adjudication,
      v.evaluatedAt)
  }

  predicate PredecessorAgrees(level: Level) {
    match level
    case Revocations(p, v) =>
      p.reference == v.corpus.predecessorRef && p.contentIds == v.corpus.contentIds
    case Checkpoints(p, own, v) =>
      && p.reference == v.corpus.predecessorRef && p.contentIds == v.corpus.contentIds
      && p.revocationPolicyRef == own.revocationPolicyRef && p.revocationLedgerRef == own.revocationLedgerRef
    case Witnesses(p, v) =>
      && p.reference == v.corpus.predecessorRef && p.contentIds == v.corpus.corpus.contentIds
      && p.policyRef == v.corpus.corpus.policyRef && p.logRef == v.corpus.corpus.logRef
      && p.headRef == v.corpus.corpus.headRef
    case Adjudications(p, _, a) =>
      p.corpus.reference == a.corpus.predecessorRef && p.corpus.contentIds == a.corpus.corpus.corpus.contentIds
  }

  ghost predicate Constructed(s: C.Scheme, level: Level) {
    match level
    case Revocations(_, v) => L.InputsConstructed(v)
    case Checkpoints(_, _, v) => v.plan.Constructed() && v.ledger.Constructed() && C.InputsConstructed(s, v)
    case Witnesses(_, v) => v.plan.Constructed() && G.WitnessInputsConstructed(v) && C.Constructed(s, v.head)
    case Adjudications(_, v, a) =>
      && v.plan.Constructed() && G.WitnessInputsConstructed(v) && C.Constructed(s, v.head)
      && a.adjudicators.Constructed() && a.policy.Constructed() && a.adjudication.Constructed()
  }

  /** The validator of this level accepts. */
  ghost predicate Validates(s: C.Scheme, level: Level) {
    match level
    case Revocations(_, v) => L.Bindings(v) && L.ValidHistory(v)
    case Checkpoints(_, _, v) => C.ValidLog(s, v)
    case Witnesses(_, v) => G.ValidWitnesses(s, v)
    case Adjudications(_, v, a) => G.ValidWitnesses(s, v) && G.ValidAdjudication(AdjudicationInputsOf(v, a))
  }

  ghost predicate Accepted(s: C.Scheme, level: Level) {
    PredecessorAgrees(level) && Validates(s, level)
  }

  function WitnessRefs(v: G.WitnessInputs): seq<Ref> {
    [Unversioned(v.registry.reference), Unversioned(v.policy.reference)] + G.References(v.attestations)
  }

  function AdjudicationRefs(a: AdjudicationRecords): seq<Ref> {
    [Unversioned(a.adjudicators.reference), Unversioned(a.policy.reference), a.adjudication.reference]
  }

  /** What the members are, in the order they are written. */
  function MemberRefs(s: C.Scheme, level: Level): seq<Ref> {
    match level
    case Revocations(_, v) =>
      [Unversioned(v.policy.reference)] + L.References(v.events) + [Unversioned(v.ledger.reference)]
    case Checkpoints(_, _, v) =>
      [Unversioned(v.policy.reference)] + s.References(v.checkpoints) + [Unversioned(v.log.reference)]
    case Witnesses(_, v) => WitnessRefs(v)
    case Adjudications(_, v, a) => WitnessRefs(v) + AdjudicationRefs(a)
  }

  function CorpusRef(level: Level): VersionedRef {
    match level
    case Revocations(_, v) => v.corpus.reference
    case Checkpoints(_, _, v) => v.corpus.reference
    case Witnesses(_, v) => v.corpus.corpus.reference
    case Adjudications(_, v, _) => v.corpus.corpus.reference
  }

  function PredecessorRef(level: Level): VersionedRef {
    match level
    case Revocations(p, _) => p.reference
    case Checkpoints(p, _, _) => p.reference
    case Witnesses(p, _) => p.reference
    case Adjudications(p, _, _) => p.corpus.reference
  }

  // ----- the documents of a level -----

  /** The kind of the k-th of n members. */
  function KindAt(level: Level, n: nat, k: nat): DocumentKind {
    match level
    case Revocations(_, _) =>
      if k == 0 then RevocationPolicyDocument else if k == n - 1 then LedgerDocument else EventDocument
    case Checkpoints(_, _, _) =>
      if k == 0 then CheckpointPolicyDocument else if k == n - 1 then LogDocument else CheckpointDocument
    case Witnesses(_, _) => WitnessKindAt(k)
    case Adjudications(_, _, _) =>
      if k == n - 3 then AdjudicatorRegistryDocument
      else if k == n - 2 then AdjudicationPolicyDocument
      else if k == n - 1 then AdjudicationDocument
      else WitnessKindAt(k)
  }

  function WitnessKindAt(k: nat): DocumentKind {
    if k == 0 then WitnessRegistryDocument else if k == 1 then WitnessPolicyDocument else WitnessAttestationDocument
  }

  predicate WitnessKind(k: DocumentKind) {
    k.WitnessRegistryDocument? || k.WitnessPolicyDocument? || k.WitnessAttestationDocument?
  }

  predicate AdjudicationKind(k: DocumentKind) {
    k.AdjudicatorRegistryDocument? || k.AdjudicationPolicyDocument? || k.AdjudicationDocument?
  }

  /** The kinds of document a call at this level stores. */
  predicate MemberKind(level: Level, k: DocumentKind) {
    match level
    case Revocations(_, _) => k.RevocationPolicyDocument? || k.EventDocument? || k.LedgerDocument?
    case Checkpoints(_, _, _) => k.CheckpointPolicyDocument? || k.CheckpointDocument? || k.LogDocument?
    case Witnesses(_, _) => WitnessKind(k)
    case Adjudications(_, _, _) => WitnessKind(k) || AdjudicationKind(k)
  }

  predicate SameLevel(a: Level, b: Level) {
    && a.Revocations? == b.Revocations? && a.Checkpoints? == b.Checkpoints?
    && a.Witnesses? == b.Witnesses? && a.Adjudications? == b.Adjudications?
  }

  /** A call at level `a` stores everything that level `b` consists of. */
  predicate Includes(a: Level, b: Level) {
    SameLevel(a, b) || (a.Adjudications? && b.Witnesses?)
  }

  /** The witness records of this level are what its documents read as. */
  ghost predicate WitnessesRead(r: Parser, v: G.WitnessInputs, docs: Documents) {
    && r.witnessCorpus(docs.corpus) == Some(v.corpus)
    && |v.attestations| + 2 <= |docs.members|
    && forall k :: 0 <= k < |v.attestations| ==> r.attestation(docs.members[2 + k]) == Some(v.attestations[k])
  }

  /** The records of this level are what its documents read as. */
  ghost predicate Reads(r: Parser, level: Level, docs: Documents) {
    match level
    case Revocations(_, v) =>
      && |docs.members| == |v.events| + 2
      && r.revocationCorpus(docs.corpus) == Some(v.corpus) && r.ledger(Last(docs.members)) == Some(v.ledger)
      && forall k :: 0 <= k < |v.events| ==> r.event(docs.members[1 + k]) == Some(v.events[k])
    case Checkpoints(p, own, v) =>
      && |docs.members| == |v.checkpoints| + 2
      && r.checkpointCorpus(docs.corpus) == Some(v.corpus) && r.revocationCorpus(docs.corpus) == Some(own)
      && r.revocationCorpus(docs.predecessor) == Some(p) && r.log(Last(docs.members)) == Some(v.log)
      && forall k :: 0 <= k < |v.checkpoints| ==> r.checkpoint(docs.members[1 + k]) == Some(v.checkpoints[k])
    case Witnesses(p, v) =>
      && |docs.members| == |v.attestations| + 2
      && r.checkpointCorpus(docs.corpus) == Some(v.corpus.corpus) && r.checkpointCorpus(docs.predecessor) == Some(p)
      && WitnessesRead(r, v, docs)
    case Adjudications(p, v, a) =>
      && |docs.members| == |v.attestations| + 5
      && r.adjudicationCorpus(docs.corpus) == Some(a.corpus) && a.corpus.corpus == v.corpus
      && r.witnessCorpus(docs.predecessor) == Some(p) && r.adjudication(Last(docs.members)) == Some(a.adjudication)
      && WitnessesRead(r, v, docs)
  }

  ghost predicate Typed(r: Parser, level: Level, docs: Documents) {
    && r.kind(docs.corpus) == CorpusDocument && r.kind(docs.predecessor) == CorpusDocument
    && forall k :: 0 <= k < |docs.members| ==> r.kind(docs.members[k]) == KindAt(level, |docs.members|, k)
  }

  lemma MembersHaveKinds(r: Parser, level: Level, docs: Documents)
    requires Typed(r, level, docs)
    ensures forall m :: m in docs.members ==> MemberKind(level, r.kind(m)) && r.kind(m) != CorpusDocument
  {
    forall m | m in docs.members ensures MemberKind(level, r.kind(m)) && r.kind(m) != CorpusDocument {
      var k :| 0 <= k < |docs.members| && docs.members[k] == m;
      assert MemberKind(level, KindAt(level, |docs.members|, k));
    }
  }

  /** The documents are the serialized forms of this level's records, in the order they are written. */
  ghost predicate Serializes(s: C.Scheme, r: Parser, level: Level, docs: Documents) {
    && ArtifactRefs(docs.members) == MemberRefs(s, level)
    && docs.corpus.Reference() == Unversioned(CorpusRef(level))
    && docs.predecessor.Reference() == Unversioned(PredecessorRef(level))
    && WellFormedScript(s.h, docs.Script())
    && Reads(r, level, docs) && Typed(r, level, docs)
  }

  /** The records a load is asked for are those the corpus document names. */
  ghost predicate Matching(s: C.Scheme, level: Level) {
    match level
    case Revocations(_, v) =>
      && v.corpus.revocationPolicyRef == v.policy.reference && v.corpus.revocationLedgerRef == v.ledger.reference
      && L.References(v.events) == v.ledger.eventRefs
    case Checkpoints(_, _, v) =>
      && v.corpus.policyRef == v.policy.reference && v.corpus.logRef == v.log.reference
      && s.References(v.checkpoints) == v.log.checkpointRefs
    case Witnesses(_, v) => WitnessesMatch(v)
    case Adjudications(_, v, a) =>
      && WitnessesMatch(v)
      && a.corpus.adjudicatorRegistryRef == a.adjudicators.reference
      && a.corpus.adjudicationPolicyRef == a.policy.reference && a.corpus.adjudicationRef == a.adjudication.reference
  }

  predicate WitnessesMatch(v: G.WitnessInputs) {
    && v.corpus.registryRef == v.registry.reference && v.corpus.policyRef == v.policy.reference
    && G.References(v.attestations) == v.corpus.attestationRefs
  }

  lemma ValidMatches(s: C.Scheme, level: Level)
    requires Validates(s, level)
    ensures Matching(s, level)
  {
  }

  // ----- loading a level back -----

  /** The evidence a load returns. */
  datatype Population =
    | Events(events: seq<Event>)
    | Log(checkpoints: seq<C.Checkpoint>)
    | Observations(attestations: seq<G.WitnessAttestation>)
    | Adjudicated(attestations: seq<G.WitnessAttestation>, adjudications: seq<Adjudication>)

  function PopulationOf(level: Level): Population {
    match level
    case Revocations(_, v) => Events(v.events)
    case Checkpoints(_, _, v) => Log(v.checkpoints)
    case Witnesses(_, v) => Observations(v.attestations)
    case Adjudications(_, v, a) => Adjudicated(v.attestations, [a.adjudication])
  }

  predicate Sized(level: Level, docs: Documents) {
    |docs.members| >= if level.Adjudications? then 5 else 2
  }

  /** What the load compares byte for byte: the corpus, registries, policies, ledger and log. */
  function Snapshots(level: Level, docs: Documents): seq<Artifact>
    requires Sized(level, docs)
  {
    var n := |docs.members|;
    match level
    case Revocations(_, _) => [docs.corpus, docs.members[0], docs.members[n - 1]]
    case Checkpoints(_, _, _) => [docs.corpus, docs.members[0], docs.members[n - 1]]
    case Witnesses(_, _) => [docs.corpus, docs.members[0], docs.members[1]]
    case Adjudications(_, _, _) =>
      [docs.corpus, docs.members[0], docs.members[1], docs.members[n - 3], docs.members[n - 2]]
  }

  /** The load for these documents succeeds with this evidence. */
  ghost predicate LoadReturns(v: View, s: C.Scheme, r: Parser, level: Level, docs: Documents, evidence: Population)
    requires Sized(level, docs)
  {
    && AllStored(v, Snapshots(level, docs))
    && match level
       case Revocations(_, i) => evidence.Events? && Read(v, r.event, EventRef, i.ledger.eventRefs, evidence.events)
       case Checkpoints(_, _, i) =>
         evidence.Log? && Read(v, r.checkpoint, s.Reference, i.log.checkpointRefs, evidence.checkpoints)
       case Witnesses(_, i) =>
         && evidence.Observations?
         && Read(v, r.attestation, AttestationRef, i.corpus.attestationRefs, evidence.attestations)
       case Adjudications(_, i, a) =>
         && evidence.Adjudicated?
         && Read(v, r.attestation, AttestationRef, i.corpus.attestationRefs, evidence.attestations)
         && Read(v, r.adjudication, AdjudicationRef, [a.corpus.adjudicationRef], evidence.adjudications)
  }

  /** The load for these documents succeeds. */
  ghost predicate LoadSucceeds(v: View, s: C.Scheme, r: Parser, level: Level, docs: Documents)
    requires Sized(level, docs)
  {
    exists evidence :: LoadReturns(v, s, r, level, docs, evidence)
  }

  /** Everything this publication consists of is stored. */
  ghost predicate Loadable(v: View, docs: Documents) {
    AllStored(v, docs.Script())
  }

  lemma SnapshotsAreStored(v: View, level: Level, docs: Documents)
    requires Loadable(v, docs) && Sized(level, docs)
    ensures AllStored(v, Snapshots(level, docs))
  {
    ScriptMembers(docs, v);
    forall k | 0 <= k < |Snapshots(level, docs)| ensures Stored(v, Snapshots(level, docs)[k]) {
      assert k == 0 || Snapshots(level, docs)[k] in docs.members;
    }
  }

  /** Stored members, read one by one from position `from` on, are the records they were written from. */
  lemma MembersRead<R>(
    v: View, docs: Documents, from: nat, parse: Artifact -> Option<R>, refOf: R -> Ref, refs: seq<Ref>, records: seq<R>)
    requires Loadable(v, docs) && |refs| == |records| && from + |records| <= |docs.members|
    requires ArtifactRefs(docs.members)[from..from + |records|] == refs
    requires forall k :: 0 <= k < |records| ==> parse(docs.members[from + k]) == Some(records[k])
    requires forall k :: 0 <= k < |records| ==> refOf(records[k]) == refs[k]
    ensures Read(v, parse, refOf, refs, records)
  {
    forall k | 0 <= k < |refs| ensures ReadsAs(v, parse, refOf, refs[k], records[k]) {
      assert docs.Script()[from + k] == docs.members[from + k];
      assert ArtifactRefs(docs.members)[from..from + |records|][k] == docs.members[from + k].Reference();
      assert Stored(v, docs.members[from + k]);
    }
  }

  lemma MiddleOf<T>(first: seq<T>, middle: seq<T>, last: seq<T>)
    ensures (first + middle + last)[|first|..|first| + |middle|] == middle
  {
  }

  /** A population between a first and a last member, as in a ledger or a log. */
  lemma FramedRead<R>(
    v: View, docs: Documents, first: Ref, last: Ref, parse: Artifact -> Option<R>, refOf: R -> Ref, refs: seq<Ref>,
    records: seq<R>)
    requires Loadable(v, docs) && ArtifactRefs(docs.members) == [first] + refs + [last] && |refs| == |records|
    requires forall k :: 0 <= k < |records| ==> parse(docs.members[1 + k]) == Some(records[k])
    requires forall k :: 0 <= k < |records| ==> refOf(records[k]) == refs[k]
    ensures Read(v, parse, refOf, refs, records)
  {
    MiddleOf([first], refs, [last]);
    MembersRead(v, docs, 1, parse, refOf, refs, records);
  }

  lemma EventsRead(v: View, s: C.Scheme, r: Parser, level: Level, docs: Documents)
    requires level.Revocations? && ArtifactRefs(docs.members) == MemberRefs(s, level) && Reads(r, level, docs)
    requires Loadable(v, docs)
    ensures Read(v, r.event, EventRef, L.References(level.ledgerInputs.events), level.ledgerInputs.events)
  {
    var i := level.ledgerInputs;
    FramedRead(v, docs, Unversioned(i.policy.reference), Unversioned(i.ledger.reference), r.event, EventRef,
               L.References(i.events), i.events);
  }

  lemma CheckpointsRead(v: View, s: C.Scheme, r: Parser, level: Level, docs: Documents)
    requires level.Checkpoints? && ArtifactRefs(docs.members) == MemberRefs(s, level) && Reads(r, level, docs)
    requires Loadable(v, docs)
    ensures Read(v, r.checkpoint, s.Reference, s.References(level.logInputs.checkpoints), level.logInputs.checkpoints)
  {
    var i := level.logInputs;
    FramedRead(v, docs, Unversioned(i.policy.reference), Unversioned(i.log.reference), r.checkpoint, s.Reference,
               s.References(i.checkpoints), i.checkpoints);
  }

  lemma AttestationsRead(v: View, r: Parser, i: G.WitnessInputs, rest: seq<Ref>, docs: Documents)
    requires WitnessesRead(r, i, docs) && ArtifactRefs(docs.members) == WitnessRefs(i) + rest
    requires Loadable(v, docs)
    ensures Read(v, r.attestation, AttestationRef, G.References(i.attestations), i.attestations)
  {
    var head := [Unversioned(i.registry.reference), Unversioned(i.policy.reference)];
    MiddleOf(head, G.References(i.attestations), rest);
    MembersRead(v, docs, 2, r.attestation, AttestationRef, G.References(i.attestations), i.attestations);
  }

  lemma AdjudicationIsRead(v: View, s: C.Scheme, r: Parser, level: Level, docs: Documents)
    requires level.Adjudications? && ArtifactRefs(docs.members) == MemberRefs(s, level) && Reads(r, level, docs)
    requires Loadable(v, docs)
    ensures var a := level.records.adjudication;
            Read(v, r.adjudication, AdjudicationRef, [a.reference], [a])
  {
    ScriptMembers(docs, v);
    assert Last(ArtifactRefs(docs.members)) == Last(docs.members).Reference();
    assert Last(docs.members) in docs.members;
  }

  lemma WitnessMembersRead(v: View, s: C.Scheme, r: Parser, level: Level, docs: Documents)
    requires level.Witnesses? && ArtifactRefs(docs.members) == MemberRefs(s, level) && Reads(r, level, docs)
    requires Loadable(v, docs)
    ensures var i := level.witnessInputs;
            Read(v, r.attestation, AttestationRef, G.References(i.attestations), i.attestations)
  {
    assert WitnessRefs(level.witnessInputs) + [] == MemberRefs(s, level);
    AttestationsRead(v, r, level.witnessInputs, [], docs);
  }

  lemma AdjudicationMembersRead(v: View, s: C.Scheme, r: Parser, level: Level, docs: Documents)
    requires level.Adjudications? && ArtifactRefs(docs.members) == MemberRefs(s, level) && Reads(r, level, docs)
    requires Loadable(v, docs)
    ensures var i, a := level.witnessInputs, level.records.adjudication;
            && Read(v, r.attestation, AttestationRef, G.References(i.attestations), i.attestations)
            && Read(v, r.adjudication, AdjudicationRef, [a.reference], [a])
  {
    AttestationsRead(v, r, level.witnessInputs, AdjudicationRefs(level.records), docs);
    AdjudicationIsRead(v, s, r, level, docs);
  }

  lemma StoredPopulationIsRead(v: View, s: C.Scheme, r: Parser, level: Level, docs: Documents)
    requires ArtifactRefs(docs.members) == MemberRefs(s, level) && Reads(r, level, docs) && Matching(s, level)
    requires Loadable(v, docs) && Sized(level, docs) && AllStored(v, Snapshots(level, docs))
    ensures LoadReturns(v, s, r, level, docs, PopulationOf(level))
  {
    match level {
      case Revocations(_, _) => EventsRead(v, s, r, level, docs);
      case Checkpoints(_, _, _) => CheckpointsRead(v, s, r, level, docs);
      case Witnesses(_, _) => WitnessMembersRead(v, s, r, level, docs);
      case Adjudications(_, _, _) => AdjudicationMembersRead(v, s, r, level, docs);
    }
  }

  lemma SerializedIsSized(s: C.Scheme, r: Parser, level: Level, docs: Documents)
    requires Serializes(s, r, level, docs)
    ensures Sized(level, docs) && ArtifactRefs(docs.members) == MemberRefs(s, level) && Reads(r, level, docs)
  {
  }

  /** Stored documents load, and load as the evidence they were written from. */
  lemma LoadableLoads(v: View, s: C.Scheme, r: Parser, level: Level, docs: Documents)
    requires Serializes(s, r, level, docs) && Matching(s, level) && Loadable(v, docs)
    ensures Sized(level, docs) && LoadReturns(v, s, r, level, docs, PopulationOf(level))
  {
    SerializedIsSized(s, r, level, docs);
    SnapshotsAreStored(v, level, docs);
    StoredPopulationIsRead(v, s, r, level, docs);
  }

  lemma LoadIsUnique(v: View, s: C.Scheme, r: Parser, level: Level, docs: Documents, x: Population, y: Population)
    requires Sized(level, docs) && LoadReturns(v, s, r, level, docs, x) && LoadReturns(v, s, r, level, docs, y)
    ensures x == y
  {
    match level {
      case Revocations(_, i) => ReadIsUnique(v, r.event, EventRef, i.ledger.eventRefs, x.events, y.events);
      case Checkpoints(_, _, i) =>
        ReadIsUnique(v, r.checkpoint, s.Reference, i.log.checkpointRefs, x.checkpoints, y.checkpoints);
      case Witnesses(_, i) =>
        ReadIsUnique(v, r.attestation, AttestationRef, i.corpus.attestationRefs, x.attestations, y.attestations);
      case Adjudications(_, i, a) =>
        ReadIsUnique(v, r.attestation, AttestationRef, i.corpus.attestationRefs, x.attestations, y.attestations);
        ReadIsUnique(v, r.adjudication, AdjudicationRef, [a.corpus.adjudicationRef], x.adjudications, y.adjudications);
    }
  }

  // ----- a load that succeeds has found the documents -----

  /** Among the stored artifacts and these documents, a digest stands for one payload. */
  ghost predicate StoreAgrees(v: View, docs: Documents) {
    && Keyed(v)
    && forall id, m :: id in v && m in docs.members && v[id].hash == m.hash ==> v[id].payload == m.payload
  }

  lemma SnapshotIsHeld(v: View, a: Artifact)
    requires Stored(v, a)
    ensures Held(v, a.Reference())
  {
  }

  lemma SnapshotsAreHeld(v: View, level: Level, docs: Documents)
    requires Sized(level, docs) && AllStored(v, Snapshots(level, docs))
    ensures forall k :: 0 <= k < |Snapshots(level, docs)| ==> Held(v, Snapshots(level, docs)[k].Reference())
    ensures Stored(v, docs.corpus)
  {
    forall k | 0 <= k < |Snapshots(level, docs)| ensures Held(v, Snapshots(level, docs)[k].Reference()) {
      SnapshotIsHeld(v, Snapshots(level, docs)[k]);
    }
    assert Stored(v, Snapshots(level, docs)[0]);
  }

  lemma AllHeldTogether(v: View, first: seq<Ref>, second: seq<Ref>)
    requires AllHeld(v, first) && AllHeld(v, second)
    ensures AllHeld(v, first + second)
  {
  }

  lemma OneHeld(v: View, ref: Ref)
    requires Held(v, ref)
    ensures AllHeld(v, [ref])
  {
  }

  /** First, population, last: the members of a ledger or log level. */
  lemma FramedAreHeld(v: View, first: Ref, middle: seq<Ref>, last: Ref)
    requires Held(v, first) && AllHeld(v, middle) && Held(v, last)
    ensures AllHeld(v, [first] + middle + [last])
  {
    OneHeld(v, first);
    OneHeld(v, last);
    AllHeldTogether(v, [first], middle);
    AllHeldTogether(v, [first] + middle, [last]);
  }

  lemma WitnessesAreHeld(v: View, i: G.WitnessInputs)
    requires Held(v, Unversioned(i.registry.reference)) && Held(v, Unversioned(i.policy.reference))
    requires AllHeld(v, G.References(i.attestations))
    ensures AllHeld(v, WitnessRefs(i))
  {
    AllHeldTogether(v, [Unversioned(i.registry.reference), Unversioned(i.policy.reference)], G.References(i.attestations));
  }

  lemma LedgerOrLogIsHeld(v: View, s: C.Scheme, level: Level, docs: Documents, middle: seq<Ref>)
    requires ArtifactRefs(docs.members) == MemberRefs(s, level) && |docs.members| == |middle| + 2
    requires level.Revocations? || level.Checkpoints?
    requires middle == if level.Revocations? then L.References(level.ledgerInputs.events)
                       else s.References(level.logInputs.checkpoints)
    requires AllStored(v, Snapshots(level, docs)) && AllHeld(v, middle)
    ensures AllHeld(v, MemberRefs(s, level))
  {
    SnapshotsAreHeld(v, level, docs);
    var refs, n, shots := ArtifactRefs(docs.members), |docs.members|, Snapshots(level, docs);
    assert Held(v, shots[1].Reference()) && Held(v, shots[2].Reference());
    FramedAreHeld(v, refs[0], middle, refs[n - 1]);
    assert MemberRefs(s, level) == [refs[0]] + middle + [refs[n - 1]];
  }

  lemma WitnessMembersAreHeld(v: View, s: C.Scheme, level: Level, docs: Documents, i: G.WitnessInputs)
    requires ArtifactRefs(docs.members) == MemberRefs(s, level) && Sized(level, docs)
    requires (level.Witnesses? || level.Adjudications?) && i == level.witnessInputs
    requires AllStored(v, Snapshots(level, docs)) && AllHeld(v, G.References(i.attestations))
    ensures AllHeld(v, WitnessRefs(i))
  {
    SnapshotsAreHeld(v, level, docs);
    var refs, shots := ArtifactRefs(docs.members), Snapshots(level, docs);
    assert Held(v, shots[1].Reference()) && Held(v, shots[2].Reference());
    assert refs[0] == docs.members[0].Reference() && refs[1] == docs.members[1].Reference();
    WitnessesAreHeld(v, i);
  }

  lemma AdjudicationIsHeld(v: View, s: C.Scheme, level: Level, docs: Documents)
    requires level.Adjudications? && ArtifactRefs(docs.members) == MemberRefs(s, level) && Matching(s, level)
    requires Sized(level, docs) && |docs.members| == |level.witnessInputs.attestations| + 5
    requires AllStored(v, Snapshots(level, docs)) && AllHeld(v, [level.records.corpus.adjudicationRef])
    ensures AllHeld(v, AdjudicationRefs(level.records))
  {
    SnapshotsAreHeld(v, level, docs);
    var n, refs, a := |docs.members|, ArtifactRefs(docs.members), level.records;
    var shots := Snapshots(level, docs);
    assert Held(v, shots[3].Reference()) && Held(v, shots[4].Reference());
    assert refs[n - 3] == Unversioned(a.adjudicators.reference) && refs[n - 2] == Unversioned(a.policy.reference);
    assert Held(v, [a.corpus.adjudicationRef][0]);
  }

  /** What is used of a level's documents when a load is traced back to them. */
  ghost predicate Listed(s: C.Scheme, r: Parser, level: Level, docs: Documents) {
    ArtifactRefs(docs.members) == MemberRefs(s, level) && Reads(r, level, docs) && Matching(s, level)
  }

  lemma EventsLoadedAreHeld(v: View, s: C.Scheme, r: Parser, level: Level, docs: Documents, evidence: Population)
    requires level.Revocations? && Listed(s, r, level, docs)
    requires Sized(level, docs) && LoadReturns(v, s, r, level, docs, evidence)
    ensures AllHeld(v, MemberRefs(s, level))
  {
    var i := level.ledgerInputs;
    ReadIsHeld(v, v, r.event, EventRef, i.ledger.eventRefs, evidence.events);
    LedgerOrLogIsHeld(v, s, level, docs, L.References(i.events));
  }

  lemma CheckpointsLoadedAreHeld(v: View, s: C.Scheme, r: Parser, level: Level, docs: Documents, evidence: Population)
    requires level.Checkpoints? && Listed(s, r, level, docs)
    requires Sized(level, docs) && LoadReturns(v, s, r, level, docs, evidence)
    ensures AllHeld(v, MemberRefs(s, level))
  {
    var i := level.logInputs;
    ReadIsHeld(v, v, r.checkpoint, s.Reference, i.log.checkpointRefs, evidence.checkpoints);
    LedgerOrLogIsHeld(v, s, level, docs, s.References(i.checkpoints));
  }

  lemma WitnessesLoadedAreHeld(v: View, s: C.Scheme, r: Parser, level: Level, docs: Documents, evidence: Population)
    requires (level.Witnesses? || level.Adjudications?) && Listed(s, r, level, docs)
    requires Sized(level, docs) && LoadReturns(v, s, r, level, docs, evidence)
    ensures AllHeld(v, WitnessRefs(level.witnessInputs))
  {
    var i := level.witnessInputs;
    ReadIsHeld(v, v, r.attestation, AttestationRef, i.corpus.attestationRefs, evidence.attestations);
    WitnessMembersAreHeld(v, s, level, docs, i);
  }

  lemma AdjudicationLoadedIsHeld(v: View, s: C.Scheme, r: Parser, level: Level, docs: Documents, evidence: Population)
    requires level.Adjudications? && Listed(s, r, level, docs)
    requires Sized(level, docs) && LoadReturns(v, s, r, level, docs, evidence)
    ensures AllHeld(v, MemberRefs(s, level))
  {
    var a := level.records;
    ReadIsHeld(v, v, r.adjudication, AdjudicationRef, [a.corpus.adjudicationRef], evidence.adjudications);
    WitnessesLoadedAreHeld(v, s, r, level, docs, evidence);
    AdjudicationIsHeld(v, s, level, docs);
    AllHeldTogether(v, WitnessRefs(level.witnessInputs), AdjudicationRefs(a));
  }

  /** A successful load has found something with the right hash under every member's ID. */
  lemma LoadedMembersAreHeld(v: View, s: C.Scheme, r: Parser, level: Level, docs: Documents, evidence: Population)
    requires Listed(s, r, level, docs) && Sized(level, docs) && LoadReturns(v, s, r, level, docs, evidence)
    ensures AllHeld(v, ArtifactRefs(docs.members))
  {
    match level {
      case Revocations(_, _) => EventsLoadedAreHeld(v, s, r, level, docs, evidence);
      case Checkpoints(_, _, _) => CheckpointsLoadedAreHeld(v, s, r, level, docs, evidence);
      case Witnesses(_, _) => WitnessesLoadedAreHeld(v, s, r, level, docs, evidence);
      case Adjudications(_, _, _) => AdjudicationLoadedIsHeld(v, s, r, level, docs, evidence);
    }
  }

  lemma HeldMembersAreStored(v: View, docs: Documents)
    requires AllHeld(v, ArtifactRefs(docs.members)) && Stored(v, docs.corpus) && StoreAgrees(v, docs)
    ensures Loadable(v, docs)
  {
    forall m | m in docs.members ensures Stored(v, m) {
      var k :| 0 <= k < |docs.members| && docs.members[k] == m;
      assert ArtifactRefs(docs.members)[k] == m.Reference() && Held(v, ArtifactRefs(docs.members)[k]);
    }
    ScriptMembers(docs, v);
  }

  /** Where digests stand for one payload, only complete documents load. */
  lemma OnlyStoredDocumentsLoad(v: View, s: C.Scheme, r: Parser, level: Level, docs: Documents, evidence: Population)
    requires Listed(s, r, level, docs) && StoreAgrees(v, docs)
    requires Sized(level, docs) && LoadReturns(v, s, r, level, docs, evidence)
    ensures Loadable(v, docs)
  {
    SnapshotsAreHeld(v, level, docs);
    LoadedMembersAreHeld(v, s, r, level, docs, evidence);
    HeldMembersAreStored(v, docs);
  }

  /** The load succeeds exactly if the documents are stored, and then returns exactly what they were written from. */
  lemma LoadsExactlyTheStored(v: View, s: C.Scheme, r: Parser, level: Level, docs: Documents)
    requires Serializes(s, r, level, docs) && Matching(s, level) && StoreAgrees(v, docs)
    ensures Sized(level, docs) && (LoadSucceeds(v, s, r, level, docs) <==> Loadable(v, docs))
    ensures forall evidence :: LoadReturns(v, s, r, level, docs, evidence) ==> evidence == PopulationOf(level)
  {
    forall evidence | LoadReturns(v, s, r, level, docs, evidence)
      ensures Loadable(v, docs) && evidence == PopulationOf(level)
    {
      OnlyStoredDocumentsLoad(v, s, r, level, docs, evidence);
      LoadableLoads(v, s, r, level, docs);
      LoadIsUnique(v, s, r, level, docs, evidence, PopulationOf(level));
    }
    if Loadable(v, docs) {
      LoadableLoads(v, s, r, level, docs);
    }
  }

  /** The four load functions: snapshots compared, population read reference by reference. */
  method LoadLevel(store: FileSystemArtifactStore, s: C.Scheme, r: Parser, level: Level, docs: Documents)
    returns (evidence: Option<Population>)
    requires Sized(level, docs)
    ensures evidence.Some? ==> LoadReturns(store.Readable(), s, r, level, docs, evidence.value)
    ensures evidence.None? ==> forall other :: !LoadReturns(store.Readable(), s, r, level, docs, other)
  {
    var snapshots := LoadAll(store, Snapshots(level, docs));
    if snapshots.None? {
      return None;
    }
    match level {
      case Revocations(_, i) =>
        var events := LoadRecords(store, r.event, EventRef, i.ledger.eventRefs);
        evidence := if events.Some? then Some(Events(events.value)) else None;
      case Checkpoints(_, _, i) =>
        var checkpoints := LoadRecords(store, r.checkpoint, s.Reference, i.log.checkpointRefs);
        evidence := if checkpoints.Some? then Some(Log(checkpoints.value)) else None;
      case Witnesses(_, i) =>
        var attestations := LoadRecords(store, r.attestation, AttestationRef, i.corpus.attestationRefs);
        evidence := if attestations.Some? then Some(Observations(attestations.value)) else None;
      case Adjudications(_, i, a) =>
        var adjudications := LoadRecords(store, r.adjudication, AdjudicationRef, [a.corpus.adjudicationRef]);
        var attestations := LoadRecords(store, r.attestation, AttestationRef, i.corpus.attestationRefs);
        evidence := if adjudications.Some? && attestations.Some?
                    then Some(Adjudicated(attestations.value, adjudications.value)) else None;
    }
  }

  // ----- one call -----

  method RunValidator(s: C.Scheme, level: Level) returns (ok: bool)
    requires Constructed(s, level)
    ensures ok <==> Validates(s, level)
  {
    match level {
      case Revocations(_, v) =>
        var verdict := L.Validate(v);
        ok := verdict.Reported?;
      case Checkpoints(_, _, v) =>
        var verdict := C.Validate(s, v);
        ok := verdict.Verified?;
      case Witnesses(_, v) =>
        var verdict := G.ValidateWitnesses(s, v);
        ok := verdict.Decided?;
      case Adjudications(_, v, a) =>
        var verdict := G.ValidateWitnesses(s, v);
        if verdict.Refused? {
          return false;
        }
        G.WitnessGateFeedsAdjudication(s, v);
        var inputs := AdjudicationInputsOf(v, a);
        var adjudicated := G.ValidateAdjudication(inputs.(decision := verdict.decision));
        ok := adjudicated.Adjudicated?;
    }
  }

  datatype PersistResult =
    | Loaded(evidence: Population) | Rejected | PredecessorMissing | Stopped(reason: Option<AppendResult>)

  /**
  One persist call.  Rejected inputs or a missing predecessor write nothing; a stopped call leaves
  a prefix of the script and so no corpus document unless every member precedes it; a successful
  call leaves exactly the script, and loads back exactly the evidence it was given.
  */
  method Persist(
    store: FileSystemArtifactStore, s: C.Scheme, r: Parser, level: Level, docs: Documents, faults: FaultPlan)
    returns (result: PersistResult)
    requires store.Consistent() && store.hashing == s.h && Constructed(s, level) && Serializes(s, r, level, docs)
    modifies store
    ensures store.Consistent()
    ensures result.PredecessorMissing? <==> PredecessorAgrees(level) && !Stored(old(store.Readable()), docs.predecessor)
    ensures result.Rejected? <==>
            !PredecessorAgrees(level) || (!Validates(s, level) && Stored(old(store.Readable()), docs.predecessor))
    ensures result.Rejected? || result.PredecessorMissing? ==> store.Contents() == old(store.Contents())
    ensures result.Loaded? ==> result.evidence == PopulationOf(level)
                               && Full(old(store.Readable()), store.Readable(), docs.Script())
    ensures result.Stopped? ==> Partial(old(store.Readable()), store.Readable(), docs.Script())
    ensures AllStored(old(store.Readable()), docs.Script()) && (forall k: nat :: faults(k) == NoFault)
            && Accepted(s, level) && Stored(old(store.Readable()), docs.predecessor) ==>
              result.Loaded? && store.Contents() == old(store.Contents())
  {
    var refusal := Examine(store, s, level, docs.predecessor);
    if refusal.Some? {
      return refusal.value;
    }
    result := Write(store, s, r, level, docs, faults);
  }

  /** Guards, predecessor and validator, in that order; nothing is written. */
  method Examine(store: FileSystemArtifactStore, s: C.Scheme, level: Level, predecessor: Artifact)
    returns (refusal: Option<PersistResult>)
    requires Constructed(s, level)
    ensures refusal.None? <==> Accepted(s, level) && Stored(store.Readable(), predecessor)
    ensures refusal.Some? ==> refusal.value.Rejected? || refusal.value.PredecessorMissing?
    ensures refusal == Some(PredecessorMissing) <==> PredecessorAgrees(level) && !Stored(store.Readable(), predecessor)
  {
    if !PredecessorAgrees(level) {
      return Some(Rejected);
    }
    var found := LoadAll(store, [predecessor]);
    assert AllStored(store.Readable(), [predecessor]) <==> Stored(store.Readable(), predecessor) by {
      assert [predecessor][0] == predecessor;
    }
    if found.None? {
      return Some(PredecessorMissing);
    }
    var ok := RunValidator(s, level);
    refusal := if ok then None else Some(Rejected);
  }

  /** The load of documents that are stored: it cannot fail, and returns what they were written from. */
  method LoadBack(store: FileSystemArtifactStore, s: C.Scheme, r: Parser, level: Level, docs: Documents)
    returns (evidence: Population)
    requires Validates(s, level) && Serializes(s, r, level, docs) && Loadable(store.Readable(), docs)
    ensures evidence == PopulationOf(level)
  {
    ValidMatches(s, level);
    LoadableLoads(store.Readable(), s, r, level, docs);
    var loaded := LoadLevel(store, s, r, level, docs);
    LoadIsUnique(store.Readable(), s, r, level, docs, loaded.value, PopulationOf(level));
    evidence := loaded.value;
  }

  /** The appends of an accepted call, and its closing load, which then cannot fail. */
  method Write(
    store: FileSystemArtifactStore, s: C.Scheme, r: Parser, level: Level, docs: Documents, faults: FaultPlan)
    returns (result: PersistResult)
    requires store.Consistent() && store.hashing == s.h && Validates(s, level) && Serializes(s, r, level, docs)
    modifies store
    ensures store.Consistent() && (result.Loaded? || result.Stopped?)
    ensures result.Loaded? ==> result.evidence == PopulationOf(level)
                               && Full(old(store.Readable()), store.Readable(), docs.Script())
    ensures result.Stopped? ==> Partial(old(store.Readable()), store.Readable(), docs.Script())
    ensures AllStored(old(store.Readable()), docs.Script()) && (forall k: nat :: faults(k) == NoFault) ==>
              result.Loaded? && store.Contents() == old(store.Contents())
  {
    var script := docs.Script();
    var done, stop := AppendAll(store, script, faults);
    if stop.Some? {
      StoppedIsPartial(old(store.Readable()), store.Readable(), script, done, stop.value);
      return Stopped(stop);
    }
    assert script[..done] == script;
    var evidence := LoadBack(store, s, r, level, docs);
    result := Loaded(evidence);
  }

  /**
  An accepted call extends the very predecessor it was handed: its own evidence names that record,
  and the content population is the predecessor's and the plan's.
  */
  ghost predicate Extended(s: C.Scheme, level: Level) {
    match level
    case Revocations(p, v) => v.ledger.credentialCorpusRef == p.reference && v.plan.contentIds == p.contentIds
    case Checkpoints(p, own, v) =>
      && v.checkpoints != [] && Last(v.checkpoints).corpusRef == p.reference && v.plan.contentIds == p.contentIds
      && own.revocationPolicyRef == p.revocationPolicyRef && own.revocationLedgerRef == p.revocationLedgerRef
    case Witnesses(p, v) =>
      && (forall a :: a in v.attestations ==> a.checkpointCorpusRef == p.reference && a.checkpointLogRef == p.logRef)
      && p.headRef == s.Reference(v.head) && p.policyRef == v.corpus.corpus.policyRef
      && v.plan.contentIds == p.contentIds
    case Adjudications(p, v, a) =>
      a.adjudication.witnessPredecessorRef == p.corpus.reference && v.plan.contentIds == p.corpus.contentIds
  }

  lemma AcceptedExtendsItsPredecessor(s: C.Scheme, level: Level)
    requires Accepted(s, level)
    ensures Extended(s, level)
  {
    if level.Witnesses? {
      var v := level.witnessInputs;
      forall a | a in v.attestations
        ensures a.checkpointCorpusRef == level.checkpointCorpus.reference && a.checkpointLogRef == level.checkpointCorpus.logRef
      {
        var i :| 0 <= i < |v.attestations| && v.attestations[i] == a;
        assert G.Speaks(s, v, v.registry.witnesses[i], v.attestations[i]);
      }
    }
  }

  // ----- what one document fixes -----

  ghost predicate HashesFixPayloads(pool: seq<Artifact>) {
    forall a, b :: a in pool && b in pool && a.hash == b.hash ==> a.payload == b.payload
  }

  /** Equal references, equal artifacts: what is stored under the references is what is expected. */
  lemma SameRefsSameArtifacts(pool: seq<Artifact>, xs: seq<Artifact>, ys: seq<Artifact>)
    requires HashesFixPayloads(pool) && ArtifactRefs(xs) == ArtifactRefs(ys)
    requires (forall a :: a in xs ==> a in pool) && (forall a :: a in ys ==> a in pool)
    ensures xs == ys
  {
    assert |xs| == |ArtifactRefs(ys)|;
    forall i | 0 <= i < |xs| ensures xs[i] == ys[i] {
      assert ArtifactRefs(xs)[i] == xs[i].Reference() && ArtifactRefs(ys)[i] == ys[i].Reference();
      assert xs[i] in xs && ys[i] in ys;
    }
  }

  ghost predicate AmongPool(pool: seq<Artifact>, docs: Documents) {
    forall a :: a in docs.Script() ==> a in pool
  }

  lemma MembersAmongPool(pool: seq<Artifact>, docs: Documents)
    requires AmongPool(pool, docs)
    ensures docs.corpus in pool && forall m :: m in docs.members ==> m in pool
  {
    assert docs.Script()[|docs.members|] == docs.corpus;
    forall m | m in docs.members ensures m in pool {
      var k :| 0 <= k < |docs.members| && docs.members[k] == m;
      assert docs.Script()[k] == m;
    }
  }

  /** The last member of a ledger or log level is the ledger or log its corpus names. */
  lemma LastMembersAgree(pool: seq<Artifact>, a: Documents, b: Documents)
    requires HashesFixPayloads(pool) && AmongPool(pool, a) && AmongPool(pool, b)
    requires a.members != [] && b.members != [] && Last(a.members).Reference() == Last(b.members).Reference()
    ensures Last(a.members) == Last(b.members)
  {
    MembersAmongPool(pool, a);
    MembersAmongPool(pool, b);
    assert Last(a.members) in a.members && Last(b.members) in b.members;
  }

  lemma LastMemberRef(s: C.Scheme, r: Parser, level: Level, docs: Documents)
    requires Serializes(s, r, level, docs) && (level.Revocations? || level.Checkpoints?)
    ensures docs.members != []
    ensures Last(docs.members).Reference() ==
            Unversioned(if level.Revocations? then level.ledgerInputs.ledger.reference else level.logInputs.log.reference)
  {
    assert Last(ArtifactRefs(docs.members)) == Last(docs.members).Reference();
  }

  ghost predicate SameWitnesses(v: G.WitnessInputs, w: G.WitnessInputs) {
    && v.corpus.registryRef == w.corpus.registryRef && v.corpus.policyRef == w.corpus.policyRef
    && v.corpus.attestationRefs == w.corpus.attestationRefs
  }

  /** What the corpus record of a level says its members are, up to the ledger or log it names. */
  ghost predicate SameSource(a: Level, b: Level) {
    match (a, b)
    case (Revocations(_, v), Revocations(_, w)) =>
      && v.corpus.revocationPolicyRef == w.corpus.revocationPolicyRef
      && v.corpus.revocationLedgerRef == w.corpus.revocationLedgerRef
    case (Checkpoints(_, _, v), Checkpoints(_, _, w)) =>
      v.corpus.policyRef == w.corpus.policyRef && v.corpus.logRef == w.corpus.logRef
    case (Witnesses(_, v), Witnesses(_, w)) => SameWitnesses(v, w)
    case (Adjudications(_, v, x), Adjudications(_, w, y)) =>
      && SameWitnesses(v, w) && x.corpus.adjudicatorRegistryRef == y.corpus.adjudicatorRegistryRef
      && x.corpus.adjudicationPolicyRef == y.corpus.adjudicationPolicyRef
      && x.corpus.adjudicationRef == y.corpus.adjudicationRef
    case _ => false
  }

  lemma SameSourceSameRefs(s: C.Scheme, r: Parser, pool: seq<Artifact>, a: Level, x: Documents, b: Level, y: Documents)
    requires SameSource(a, b) && Matching(s, a) && Matching(s, b)
    requires Serializes(s, r, a, x) && Serializes(s, r, b, y)
    requires HashesFixPayloads(pool) && AmongPool(pool, x) && AmongPool(pool, y)
    ensures MemberRefs(s, a) == MemberRefs(s, b)
  {
    if a.Revocations? || a.Checkpoints? {
      LastMemberRef(s, r, a, x);
      LastMemberRef(s, r, b, y);
      LastMembersAgree(pool, x, y);
    }
  }

  /** Levels that name the same source consist of the same members. */
  lemma SameSourceSameMembers(
    s: C.Scheme, r: Parser, pool: seq<Artifact>, a: Level, x: Documents, b: Level, y: Documents)
    requires SameSource(a, b) && Matching(s, a) && Matching(s, b)
    requires Serializes(s, r, a, x) && Serializes(s, r, b, y)
    requires HashesFixPayloads(pool) && AmongPool(pool, x) && AmongPool(pool, y)
    ensures x.members == y.members
  {
    SameSourceSameRefs(s, r, pool, a, x, b, y);
    MembersAmongPool(pool, x);
    MembersAmongPool(pool, y);
    SameRefsSameArtifacts(pool, x.members, y.members);
  }

  /** One document read at one level fixes all its members: what is loaded for it is what was published. */
  lemma OneDocumentOneMembership(s: C.Scheme, r: Parser, pool: seq<Artifact>, a: Level, x: Documents, b: Level, y: Documents)
    requires SameLevel(a, b) && x.corpus == y.corpus && Matching(s, a) && Matching(s, b)
    requires Serializes(s, r, a, x) && Serializes(s, r, b, y)
    requires HashesFixPayloads(pool) && AmongPool(pool, x) && AmongPool(pool, y)
    ensures x.members == y.members
  {
    SameSourceSameMembers(s, r, pool, a, x, b, y);
  }

  /** The members a witness level and an adjudication level of one document share: the witness records. */
  lemma WitnessMembersAreShared(
    s: C.Scheme, r: Parser, pool: seq<Artifact>, a: Level, x: Documents, b: Level, y: Documents)
    requires a.Witnesses? && b.Adjudications? && x.corpus == y.corpus && Matching(s, a) && Matching(s, b)
    requires Serializes(s, r, a, x) && Serializes(s, r, b, y)
    requires HashesFixPayloads(pool) && AmongPool(pool, x) && AmongPool(pool, y)
    ensures |y.members| == |x.members| + 3 && y.members[..|x.members|] == x.members
  {
    var n := |x.members|;
    assert SameWitnesses(a.witnessInputs, b.witnessInputs);
    assert WitnessRefs(a.witnessInputs) == WitnessRefs(b.witnessInputs);
    assert ArtifactRefs(y.members[..n]) == ArtifactRefs(x.members) by {
      assert ArtifactRefs(y.members[..n]) == ArtifactRefs(y.members)[..n];
    }
    MembersAmongPool(pool, x);
    MembersAmongPool(pool, y);
    SameRefsSameArtifacts(pool, x.members, y.members[..n]);
  }

  lemma UnrelatedKindsDiffer(a: Level, b: Level, k: DocumentKind)
    requires !Includes(a, b) && !Includes(b, a) && MemberKind(a, k)
    ensures !MemberKind(b, k)
  {
  }

  lemma KindsShareNoMember(r: Parser, a: Level, x: Documents, b: Level, y: Documents)
    requires !Includes(a, b) && !Includes(b, a) && Typed(r, a, x) && Typed(r, b, y)
    ensures forall m :: m in x.members ==> m !in y.members
  {
    MembersHaveKinds(r, a, x);
    MembersHaveKinds(r, b, y);
    forall m | m in x.members ensures m !in y.members {
      UnrelatedKindsDiffer(a, b, r.kind(m));
    }
  }

  /** Levels other than witnesses and adjudications share no member, whatever documents they publish. */
  lemma LevelsShareNoMember(s: C.Scheme, r: Parser, a: Level, x: Documents, b: Level, y: Documents)
    requires !Includes(a, b) && !Includes(b, a) && Serializes(s, r, a, x) && Serializes(s, r, b, y)
    ensures forall m :: m in x.members ==> m !in y.members
  {
    KindsShareNoMember(r, a, x, b, y);
  }

  /** Of the members of an adjudication level, the witness records are those before the last three. */
  lemma WitnessKindsComeFirst(r: Parser, level: Level, docs: Documents, m: Artifact)
    requires level.Adjudications? && Typed(r, level, docs) && |docs.members| >= 3 && m in docs.members
    ensures m in docs.members[..|docs.members| - 3] <==> WitnessKind(r.kind(m))
  {
    var n := |docs.members|;
    forall j | 0 <= j < n ensures WitnessKind(r.kind(docs.members[j])) <==> j < n - 3 {
      assert r.kind(docs.members[j]) == KindAt(level, n, j);
    }
    var k :| 0 <= k < n && docs.members[k] == m;
    assert k < n - 3 ==> docs.members[..n - 3][k] == m;
  }

  lemma SharedUpwards(
    s: C.Scheme, r: Parser, pool: seq<Artifact>, a: Level, x: Documents, b: Level, y: Documents, m: Artifact)
    requires a.Witnesses? && b.Adjudications? && x.corpus == y.corpus && Matching(s, a) && Matching(s, b)
    requires Serializes(s, r, a, x) && Serializes(s, r, b, y)
    requires HashesFixPayloads(pool) && AmongPool(pool, x) && AmongPool(pool, y) && m in y.members
    ensures m in x.members <==> WitnessKind(r.kind(m))
  {
    WitnessMembersAreShared(s, r, pool, a, x, b, y);
    WitnessKindsComeFirst(r, b, y, m);
  }

  lemma SharedDownwards(
    s: C.Scheme, r: Parser, pool: seq<Artifact>, a: Level, x: Documents, b: Level, y: Documents, m: Artifact)
    requires a.Adjudications? && b.Witnesses? && x.corpus == y.corpus && Matching(s, a) && Matching(s, b)
    requires Serializes(s, r, a, x) && Serializes(s, r, b, y)
    requires HashesFixPayloads(pool) && AmongPool(pool, x) && AmongPool(pool, y) && m in y.members
    ensures m in x.members
  {
    WitnessMembersAreShared(s, r, pool, b, y, a, x);
    assert m in x.members[..|y.members|];
  }

  /**
  One document, read at any two levels: a call stores those members of the other level, and only
  those, whose kind is among the kinds its own level stores.
  */
  lemma SharedByKind(
    s: C.Scheme, r: Parser, pool: seq<Artifact>, a: Level, x: Documents, b: Level, y: Documents, m: Artifact)
    requires x.corpus == y.corpus && Matching(s, a) && Matching(s, b)
    requires Serializes(s, r, a, x) && Serializes(s, r, b, y)
    requires HashesFixPayloads(pool) && AmongPool(pool, x) && AmongPool(pool, y) && m in y.members
    ensures m in x.members <==> MemberKind(a, r.kind(m))
  {
    MembersHaveKinds(r, a, x);
    MembersHaveKinds(r, b, y);
    if SameLevel(a, b) {
      OneDocumentOneMembership(s, r, pool, a, x, b, y);
    } else if a.Adjudications? && b.Witnesses? {
      SharedDownwards(s, r, pool, a, x, b, y, m);
    } else if a.Witnesses? && b.Adjudications? {
      SharedUpwards(s, r, pool, a, x, b, y, m);
    } else {
      LevelsShareNoMember(s, r, a, x, b, y);
      UnrelatedKindsDiffer(b, a, r.kind(m));
    }
  }

  lemma ScriptMembers(docs: Documents, v: View)
    ensures Loadable(v, docs) <==> Stored(v, docs.corpus) && forall m :: m in docs.members ==> Stored(v, m)
  {
    assert docs.Script()[|docs.members|] == docs.corpus;
    forall m | m in docs.members ensures Loadable(v, docs) ==> Stored(v, m) {
      var i :| 0 <= i < |docs.members| && docs.members[i] == m;
      assert docs.Script()[i] == m;
    }
  }

  /**
  A corpus document extends a predecessor whose members it does not store again.  Because the
  persist call insists on the predecessor's policy and log (or ledger), the load of the new document
  one level down finds the members its predecessor's call stored.
  */
  lemma UpperDocumentLoadsOneLevelDown(
    s: C.Scheme, r: Parser, v: View, pool: seq<Artifact>, lower: Level, lowerDocs: Documents,
    upper: Level, upperDocs: Documents, inner: Level, innerDocs: Documents)
    requires (lower.Checkpoints? && upper.Witnesses?) || (lower.Revocations? && upper.Checkpoints?)
    requires lowerDocs.corpus == upperDocs.predecessor
    requires Validates(s, lower) && Serializes(s, r, lower, lowerDocs) && Loadable(v, lowerDocs)
    requires PredecessorAgrees(upper) && Serializes(s, r, upper, upperDocs) && Stored(v, upperDocs.corpus)
    requires SameLevel(inner, lower) && innerDocs.corpus == upperDocs.corpus
    requires Matching(s, inner) && Serializes(s, r, inner, innerDocs)
    requires HashesFixPayloads(pool) && AmongPool(pool, lowerDocs) && AmongPool(pool, innerDocs)
    ensures Loadable(v, innerDocs) && Sized(inner, innerDocs)
    ensures LoadReturns(v, s, r, inner, innerDocs, PopulationOf(inner))
  {
    ValidMatches(s, lower);
    SameSourceSameMembers(s, r, pool, inner, innerDocs, lower, lowerDocs);
    ScriptMembers(lowerDocs, v);
    ScriptMembers(innerDocs, v);
    LoadableLoads(v, s, r, inner, innerDocs);
  }
}
