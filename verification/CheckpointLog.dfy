/**
Hash-linked checkpoints over an event ledger.

The validator looks at neighbours only.  Here that is shown to give a global order, and, when
digests do not collide on the checkpoints in play, a head that fixes the whole history.
*/
module CheckpointLog {
  import opened Artifacts
  import opened Sequences
  import opened Governance
  import opened EventHistory
  import L = RevocationLedger

  datatype Checkpoint = Checkpoint(
    artifactId: string, sequence: int, corpusRef: VersionedRef, ledgerRef: VersionedRef, eventRefs: seq<Ref>,
    eventCount: int, populationHash: string, predecessor: Option<Ref>, publishedAt: int)

  /** The digests together with the canonical serialization of checkpoints and of reference lists. */
  datatype Scheme = Scheme(h: Hashing, encode: Checkpoint -> Bytes, encodeRefs: seq<Ref> -> Bytes) {
    function Reference(c: Checkpoint): Ref {
      Ref(c.artifactId, h.blob(encode(c)))
    }

    function PopulationHash(refs: seq<Ref>): string {
      h.blob(encodeRefs(refs))
    }

    function References(cs: seq<Checkpoint>): (refs: seq<Ref>)
      ensures |refs| == |cs|
      ensures forall i :: 0 <= i < |cs| ==> refs[i] == Reference(cs[i])
    {
      seq(|cs|, i requires 0 <= i < |cs| => Reference(cs[i]))
    }

    /** Canonical JSON loses no field, and no two payloads in play share a digest. */
    ghost predicate CollisionFree(pool: seq<Checkpoint>) {
      forall c, d :: c in pool && d in pool && h.blob(encode(c)) == h.blob(encode(d)) ==> c == d
    }
  }

  const CHECKPOINT_PREFIX := "adjudicator-credential-revocation-checkpoint:"

  ghost predicate Constructed(s: Scheme, c: Checkpoint) {
    && Derived(CHECKPOINT_PREFIX, c.artifactId) && c.sequence >= 0 && c.eventCount == |c.eventRefs|
    && (forall i, j :: 0 <= i < j < |c.eventRefs| ==> c.eventRefs[i].id != c.eventRefs[j].id)
    && c.populationHash == s.PopulationHash(c.eventRefs)
  }

  datatype Log = Log(
    reference: VersionedRef, status: Lifecycle, policyRef: VersionedRef, checkpointRefs: seq<Ref>, headRef: Ref, createdAt: int)

  ghost predicate LogConstructed(log: Log) {
    && log.checkpointRefs != []
    && (forall i, j :: 0 <= i < j < |log.checkpointRefs| ==> log.checkpointRefs[i].id != log.checkpointRefs[j].id)
    && log.headRef == Last(log.checkpointRefs)
  }

  datatype CheckpointPolicy = CheckpointPolicy(reference: VersionedRef, status: Lifecycle)

  datatype CheckpointCorpus = CheckpointCorpus(
    reference: VersionedRef, contentIds: seq<string>, predecessorRef: VersionedRef,
    policyRef: VersionedRef, logRef: VersionedRef, headRef: Ref)

  datatype Inputs = Inputs(
    plan: Plan, corpus: CheckpointCorpus, policy: CheckpointPolicy, log: Log, ledger: L.Ledger,
    checkpoints: seq<Checkpoint>, verifiedAt: int)

  datatype Refusal =
    | BindingsDiffer | PopulationDiffers | SequenceNotContiguous | GenesisNamesPredecessor | PredecessorDiffers
    | OrderNotPreserved | CountRolledBack | TimeNotIncreasing | VerifiedBeforePublication | HeadDiffers
    | HeadCorpusDiffers | HeadLedgerDiffers | HeadEventsDiffer | HeadCountDiffers | LogPredatesHead

  datatype Report = Report(
    experimentId: string, experimentVersion: string, corpusRef: VersionedRef, policyRef: VersionedRef,
    logRef: VersionedRef, headRef: Ref, checkpointCount: int, headSequence: int, headEventCount: int,
    headPopulationHash: string, verifiedAt: int)

  datatype Verdict = Verified(report: Report) | Refused(refusal: Refusal)

  predicate Bindings(v: Inputs) {
    && v.plan.status == Frozen
    && v.plan.corpusRef == v.corpus.reference && v.plan.contentIds == v.corpus.contentIds
    && v.corpus.policyRef == v.policy.reference
    && v.corpus.logRef == v.log.reference
    && v.corpus.headRef == v.log.headRef
    && v.policy.status == Accepted
    && v.log.status == Frozen
    && v.log.policyRef == v.policy.reference
  }

  /** A slice bound beyond the end takes the whole list. */
  function Slice<T>(s: seq<T>, n: int): seq<T>
    requires n >= 0
  {
    if n <= |s| then s[..n] else s
  }

  /** What a checkpoint owes its immediate predecessor, as a relation between neighbours. */
  ghost predicate Follows(s: Scheme, previous: Checkpoint, c: Checkpoint) {
    && c.predecessor == Some(s.Reference(previous))
    && previous.eventRefs <= c.eventRefs
    && previous.publishedAt < c.publishedAt
  }

  ghost predicate ValidChain(s: Scheme, cs: seq<Checkpoint>, verifiedAt: int) {
    && (forall i :: 0 <= i < |cs| ==> cs[i].sequence == i && cs[i].publishedAt <= verifiedAt)
    && (cs != [] ==> cs[0].predecessor == None)
    && (forall i :: 0 < i < |cs| ==> Follows(s, cs[i - 1], cs[i]))
  }

  ghost predicate ValidHead(v: Inputs) {
    && v.checkpoints != []
    && var head := Last(v.checkpoints);
       && head.corpusRef == v.corpus.predecessorRef && head.ledgerRef == v.ledger.reference
       && head.eventRefs == v.ledger.eventRefs && head.publishedAt <= v.log.createdAt
  }

  ghost predicate ValidLog(s: Scheme, v: Inputs) {
    && Bindings(v)
    && s.References(v.checkpoints) == v.log.checkpointRefs
    && ValidChain(s, v.checkpoints, v.verifiedAt)
    && ValidHead(v)
  }

  ghost predicate InputsConstructed(s: Scheme, v: Inputs) {
    LogConstructed(v.log) && forall i :: 0 <= i < |v.checkpoints| ==> Constructed(s, v.checkpoints[i])
  }

  /** What each refusal says of the inputs.  Three reasons can never be true of constructed records. */
  ghost predicate Explains(s: Scheme, v: Inputs, r: Refusal) {
    match r
    case BindingsDiffer => !Bindings(v)
    case PopulationDiffers => s.References(v.checkpoints) != v.log.checkpointRefs
    case HeadCorpusDiffers => v.checkpoints != [] && Last(v.checkpoints).corpusRef != v.corpus.predecessorRef
    case HeadLedgerDiffers => v.checkpoints != [] && Last(v.checkpoints).ledgerRef != v.ledger.reference
    case HeadEventsDiffer => v.checkpoints != [] && Last(v.checkpoints).eventRefs != v.ledger.eventRefs
    case LogPredatesHead => v.checkpoints != [] && v.log.createdAt < Last(v.checkpoints).publishedAt
    case _ => ChainFault(s, v.checkpoints, v.verifiedAt, r)
  }

  ghost predicate ChainFault(s: Scheme, cs: seq<Checkpoint>, verifiedAt: int, r: Refusal) {
    match r
    case SequenceNotContiguous => exists k :: 0 <= k < |cs| && cs[k].sequence != k
    case GenesisNamesPredecessor => cs != [] && cs[0].predecessor != None
    case PredecessorDiffers => exists k :: 0 < k < |cs| && cs[k].predecessor != Some(s.Reference(cs[k - 1]))
    case OrderNotPreserved => exists k :: 0 < k < |cs| && !(cs[k - 1].eventRefs <= cs[k].eventRefs)
    case TimeNotIncreasing => exists k :: 0 < k < |cs| && cs[k].publishedAt <= cs[k - 1].publishedAt
    case VerifiedBeforePublication => exists k :: 0 <= k < |cs| && cs[k].publishedAt > verifiedAt
    case _ => false
  }

  ghost predicate LinkFault(s: Scheme, previous: Checkpoint, c: Checkpoint, r: Refusal) {
    match r
    case PredecessorDiffers => c.predecessor != Some(s.Reference(previous))
    case OrderNotPreserved => !(previous.eventRefs <= c.eventRefs)
    case TimeNotIncreasing => c.publishedAt <= previous.publishedAt
    case _ => false
  }

  /** What a checkpoint owes its predecessor, in the validator's order. */
  method CheckLink(s: Scheme, previous: Checkpoint, c: Checkpoint) returns (refusal: Option<Refusal>)
    requires Constructed(s, previous) && Constructed(s, c)
    ensures refusal.None? <==> Follows(s, previous, c)
    ensures refusal.Some? ==> LinkFault(s, previous, c, refusal.value)
  {
    if c.predecessor != Some(s.Reference(previous)) {
      return Some(PredecessorDiffers);
    }
    SliceIsPrefix(previous.eventRefs, c.eventRefs);
    if Slice(c.eventRefs, previous.eventCount) != previous.eventRefs {
      return Some(OrderNotPreserved);
    }
    if c.eventCount < previous.eventCount {
      return Some(CountRolledBack);
    }
    if c.publishedAt <= previous.publishedAt {
      return Some(TimeNotIncreasing);
    }
    refusal := None;
  }

  /** The chain is in order up to position `k`. */
  ghost predicate ValidUpTo(s: Scheme, cs: seq<Checkpoint>, verifiedAt: int, k: nat)
    requires k <= |cs|
  {
    && (forall i :: 0 <= i < k ==> cs[i].sequence == i && cs[i].publishedAt <= verifiedAt)
    && (k > 0 ==> cs[0].predecessor == None)
    && (forall i :: 0 < i < k ==> Follows(s, cs[i - 1], cs[i]))
  }

  /** The neighbour checks, in the validator's order. */
  method CheckChain(s: Scheme, cs: seq<Checkpoint>, verifiedAt: int) returns (refusal: Option<Refusal>)
    requires forall i :: 0 <= i < |cs| ==> Constructed(s, cs[i])
    ensures refusal.None? <==> ValidChain(s, cs, verifiedAt)
    ensures refusal.Some? ==> ChainFault(s, cs, verifiedAt, refusal.value)
  {
    var previous: Option<Checkpoint> := None;
    for k := 0 to |cs|
      invariant previous == if k == 0 then None else Some(cs[k - 1])
      invariant ValidUpTo(s, cs, verifiedAt, k)
    {
      var c := cs[k];
      if c.sequence != k {
        return Some(SequenceNotContiguous);
      }
      if previous.None? {
        if c.predecessor != None {
          return Some(GenesisNamesPredecessor);
        }
      } else {
        refusal := CheckLink(s, previous.value, c);
        if refusal.Some? {
          assert !Follows(s, cs[k - 1], cs[k]);
          return;
        }
      }
      if c.publishedAt > verifiedAt {
        return Some(VerifiedBeforePublication);
      }
      previous := Some(c);
    }
    refusal := None;
  }

  /** The slice comparison already excludes a shorter list, so the roll-back check behind it is dead. */
  lemma SliceIsPrefix(before: seq<Ref>, after: seq<Ref>)
    ensures Slice(after, |before|) == before <==> before <= after
    ensures Slice(after, |before|) == before ==> |before| <= |after|
  {
    if before <= after {
      assert after[..|before|] == before;
    }
  }

  /** The report on a valid log, read off the plan, the corpus and the ledger, not the checkpoints. */
  function ReportOf(s: Scheme, v: Inputs): Report {
    Report(
      v.plan.experimentId, v.plan.experimentVersion, v.plan.corpusRef, v.corpus.policyRef,
      v.corpus.logRef, v.corpus.headRef, |v.log.checkpointRefs|, |v.log.checkpointRefs| - 1,
      |v.ledger.eventRefs|, s.PopulationHash(v.ledger.eventRefs), v.verifiedAt)
  }

  /**
  Accepts exactly the valid logs, and refuses for a reason that is true; the roll-back, head
  reference and head count checks never supply one.
  */
  method Validate(s: Scheme, v: Inputs) returns (verdict: Verdict)
    requires InputsConstructed(s, v)
    ensures verdict.Verified? <==> ValidLog(s, v)
    ensures verdict.Refused? ==> Explains(s, v, verdict.refusal)
    ensures verdict.Verified? ==>
              && |v.log.checkpointRefs| >= 1
              && verdict.report == ReportOf(s, v)
  {
    if !Bindings(v) {
      return Refused(BindingsDiffer);
    }
    if s.References(v.checkpoints) != v.log.checkpointRefs {
      return Refused(PopulationDiffers);
    }
    var refusal := CheckChain(s, v.checkpoints, v.verifiedAt);
    if refusal.Some? {
      return Refused(refusal.value);
    }
    var head := Last(v.checkpoints);
    if s.Reference(head) != v.log.headRef {
      return Refused(HeadDiffers);
    }
    if head.corpusRef != v.corpus.predecessorRef {
      return Refused(HeadCorpusDiffers);
    }
    if head.ledgerRef != v.ledger.reference {
      return Refused(HeadLedgerDiffers);
    }
    if head.eventRefs != v.ledger.eventRefs {
      return Refused(HeadEventsDiffer);
    }
    if head.eventCount != |v.ledger.eventRefs| {
      return Refused(HeadCountDiffers);
    }
    if v.log.createdAt < head.publishedAt {
      return Refused(LogPredatesHead);
    }
    return Verified(Report(
      v.plan.experimentId, v.plan.experimentVersion, v.corpus.reference, v.policy.reference, v.log.reference,
      s.Reference(head), |v.checkpoints|, head.sequence, head.eventCount, head.populationHash, v.verifiedAt));
  }

  /**
  The report, read off plan, corpus and ledger, is that of the last checkpoint: its position, its
  events and their hash, and the number of checkpoints up to it; the records it names are in force.
  */
  lemma ReportIsOfTheHead(s: Scheme, v: Inputs)
    requires InputsConstructed(s, v) && ValidLog(s, v)
    ensures var r, head := ReportOf(s, v), Last(v.checkpoints);
            && r.headRef == s.Reference(head) && r.headSequence == head.sequence
            && r.headEventCount == |head.eventRefs| && r.headPopulationHash == head.populationHash
            && r.checkpointCount == |v.checkpoints| == r.headSequence + 1
            && r.experimentId == v.plan.experimentId && r.experimentVersion == v.plan.experimentVersion
            && r.corpusRef == v.corpus.reference && r.policyRef == v.policy.reference
            && r.logRef == v.log.reference && r.verifiedAt == v.verifiedAt
            && r.headRef.id == head.artifactId
    ensures v.plan.status == Frozen && v.policy.status == Accepted && v.log.status == Frozen
    ensures v.log.policyRef == v.corpus.policyRef && v.plan.contentIds == v.corpus.contentIds
  {
    assert Constructed(s, Last(v.checkpoints));
    assert s.References(v.checkpoints)[|v.checkpoints| - 1] == s.Reference(Last(v.checkpoints));
  }

  // ----- global order from neighbour checks -----

  lemma {:induction false} ChainIsOrdered(s: Scheme, cs: seq<Checkpoint>, verifiedAt: int, i: nat, j: nat)
    requires ValidChain(s, cs, verifiedAt) && i < j < |cs|
    ensures cs[i].eventRefs <= cs[j].eventRefs && cs[i].publishedAt < cs[j].publishedAt
  {
    assert Follows(s, cs[j - 1], cs[j]);
    if i < j - 1 {
      ChainIsOrdered(s, cs, verifiedAt, i, j - 1);
    }
  }

  /** In a validated log every pair of checkpoints is ordered, and each list is a ledger prefix. */
  lemma ValidLogIsGloballyOrdered(s: Scheme, v: Inputs)
    requires ValidLog(s, v)
    ensures forall i, j :: 0 <= i < j < |v.checkpoints| ==>
              && v.checkpoints[i].eventRefs <= v.checkpoints[j].eventRefs
              && v.checkpoints[i].publishedAt < v.checkpoints[j].publishedAt
              && v.checkpoints[i].sequence < v.checkpoints[j].sequence
    ensures forall i :: 0 <= i < |v.checkpoints| ==>
              v.checkpoints[i].sequence == i && v.checkpoints[i].eventRefs <= v.ledger.eventRefs
  {
    forall i, j | 0 <= i < j < |v.checkpoints|
      ensures v.checkpoints[i].eventRefs <= v.checkpoints[j].eventRefs
      ensures v.checkpoints[i].publishedAt < v.checkpoints[j].publishedAt
    {
      ChainIsOrdered(s, v.checkpoints, v.verifiedAt, i, j);
    }
  }

  // ----- a reference fixes its past -----

  lemma {:induction false} ReferenceFixesChain(s: Scheme, cs: seq<Checkpoint>, ds: seq<Checkpoint>, t: int, u: int, i: nat, j: nat)
    requires ValidChain(s, cs, t) && ValidChain(s, ds, u) && s.CollisionFree(cs + ds)
    requires i < |cs| && j < |ds| && s.Reference(cs[i]) == s.Reference(ds[j])
    ensures i == j && cs[..i + 1] == ds[..j + 1]
  {
    assert cs[i] in cs + ds && ds[j] in cs + ds;
    assert cs[i] == ds[j];
    if i > 0 {
      assert Follows(s, cs[i - 1], cs[i]) && Follows(s, ds[j - 1], ds[j]);
      ReferenceFixesChain(s, cs, ds, t, u, i - 1, j - 1);
      assert cs[..i + 1] == cs[..i] + [cs[i]] && ds[..j + 1] == ds[..j] + [ds[j]];
    }
  }

  /**
  Two validated logs, however their ledgers, corpora and times differ, that share one checkpoint
  reference agree on that checkpoint's position, on every earlier checkpoint and its event list.
  */
  lemma SharedReferenceFixesThePast(s: Scheme, v: Inputs, w: Inputs, i: nat, j: nat)
    requires ValidLog(s, v) && ValidLog(s, w) && s.CollisionFree(v.checkpoints + w.checkpoints)
    requires i < |v.log.checkpointRefs| && j < |w.log.checkpointRefs| && v.log.checkpointRefs[i] == w.log.checkpointRefs[j]
    ensures i == j && v.checkpoints[..i + 1] == w.checkpoints[..j + 1]
    ensures v.log.checkpointRefs[..i + 1] == w.log.checkpointRefs[..j + 1]
    ensures forall k :: 0 <= k <= i ==> v.checkpoints[k].eventRefs == w.checkpoints[k].eventRefs
  {
    assert v.log.checkpointRefs[i] == s.Reference(v.checkpoints[i]);
    ReferenceFixesChain(s, v.checkpoints, w.checkpoints, v.verifiedAt, w.verifiedAt, i, j);
    forall k | 0 <= k <= i ensures v.checkpoints[k] == w.checkpoints[k] {
      assert v.checkpoints[..i + 1][k] == w.checkpoints[..j + 1][k];
    }
    assert v.log.checkpointRefs[..i + 1] == w.log.checkpointRefs[..j + 1];
  }

  /** One head, one history: the same checkpoints, and the same ledger of events. */
  lemma SameHeadSameHistory(s: Scheme, v: Inputs, w: Inputs)
    requires InputsConstructed(s, v) && InputsConstructed(s, w)
    requires ValidLog(s, v) && ValidLog(s, w) && s.CollisionFree(v.checkpoints + w.checkpoints)
    requires v.log.headRef == w.log.headRef
    ensures v.checkpoints == w.checkpoints && v.log.checkpointRefs == w.log.checkpointRefs
    ensures v.ledger.reference == w.ledger.reference && v.ledger.eventRefs == w.ledger.eventRefs
  {
    var i, j := |v.checkpoints| - 1, |w.checkpoints| - 1;
    SharedReferenceFixesThePast(s, v, w, i, j);
    assert v.checkpoints[..i + 1] == v.checkpoints && w.checkpoints[..j + 1] == w.checkpoints;
    assert s.References(v.checkpoints) == s.References(w.checkpoints);
  }

  // ----- every checkpoint is itself a history -----

  /**
  Over an accepted ledger, the events behind any checkpoint are a ledger prefix that the ledger
  rules accept as it stands, and it decides as the head does exactly when everything published
  later takes effect later.
  */
  lemma CheckpointIsAHistory(s: Scheme, v: Inputs, u: L.Inputs, i: nat)
    requires ValidLog(s, v) && i < |v.checkpoints|
    requires u.adjudicators.Constructed() && L.Bindings(u) && L.ValidHistory(u) && u.ledger == v.ledger
    ensures var n := |v.checkpoints[i].eventRefs|;
            && n <= |u.events|
            && v.checkpoints[i].eventRefs == L.References(u.events[..n])
            && L.ValidHistory(u.(events := u.events[..n]))
            && (L.Decision(u.(events := u.events[..n])) == L.Decision(u) <==>
                  forall k :: n <= k < |u.events| ==> u.events[k].effectiveAt > u.evaluatedAt)
  {
    ValidLogIsGloballyOrdered(s, v);
    var n := |v.checkpoints[i].eventRefs|;
    assert v.checkpoints[i].eventRefs == v.ledger.eventRefs[..n];
    assert L.References(u.events[..n]) == L.References(u.events)[..n];
    L.PrefixIsValid(u, n);
    L.PrefixDecidesAlike(u, n);
  }
}
