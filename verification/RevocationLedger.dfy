/**
The revocation ledger validator and its as-of decision.

`ValidHistory` says, without the validator's maps and loops, which event populations are
acceptable; `Validate` returns a report for exactly those.
*/
module RevocationLedger {
  import opened Artifacts
  import opened Sequences
  import opened Governance
  import opened EventHistory

  datatype RevocationCorpus = RevocationCorpus(
    reference: VersionedRef, contentIds: seq<string>, predecessorRef: VersionedRef,
    revocationPolicyRef: VersionedRef, revocationLedgerRef: VersionedRef)

  datatype RevocationPolicy = RevocationPolicy(
    reference: VersionedRef, status: Lifecycle, permittedEffects: set<CredentialStatus>,
    requireAttestationIssuer: bool, abstainOn: set<CredentialStatus>)
  {
    /** The constructor also forces linear supersession and monotonic time; no check reads those flags. */
    predicate Constructed() {
      && permittedEffects == {Active, Suspended, Revoked} && requireAttestationIssuer
      && {Suspended, Revoked} <= abstainOn
    }
  }

  datatype Ledger = Ledger(
    reference: VersionedRef, status: Lifecycle, credentialCorpusRef: VersionedRef,
    issuerRegistryRef: VersionedRef, revocationPolicyRef: VersionedRef, eventRefs: seq<Ref>)
  {
    ghost predicate Constructed() {
      forall i, j :: 0 <= i < j < |eventRefs| ==> eventRefs[i].id != eventRefs[j].id
    }
  }

  datatype Inputs = Inputs(
    plan: Plan, corpus: RevocationCorpus, adjudicators: AdjudicatorRegistry, issuers: IssuerRegistry,
    credentialPolicy: CredentialPolicy, policy: RevocationPolicy, ledger: Ledger,
    attestations: seq<Attestation>, adjudication: Adjudication, events: seq<Event>, evaluatedAt: int)

  /** Every record came through its constructor. */
  ghost predicate InputsConstructed(v: Inputs) {
    && v.plan.Constructed() && v.adjudicators.Constructed() && v.issuers.Constructed()
    && v.credentialPolicy.Constructed() && v.policy.Constructed() && v.ledger.Constructed() && v.adjudication.Constructed()
    && (forall a :: a in v.attestations ==> a.Constructed())
    && (forall e :: e in v.events ==> e.Constructed())
  }

  datatype Failure =
    | DuplicateEvent(id: string) | UnknownAttestation(id: string) | AdjudicatorDiffers(id: string)
    | IssuerDiffers(id: string) | NotTheAttestingIssuer(id: string) | EffectNotPermitted(id: string)
    | AttestationAbsent(id: string) | FirstSupersedes(id: string) | NotImmediateSuccessor(id: string)
    | EffectivePrecedes(id: string) | AdjudicationUncovered

  /** `reasons` is empty exactly when the abstention is not triggered. */
  datatype Summary = Summary(
    adjudicatorId: string, attestationRef: Ref, baseStatus: CredentialStatus, effectiveStatus: CredentialStatus,
    appliedEventIds: seq<string>, effectiveEventId: Option<string>, reasons: seq<CredentialStatus>)

  datatype Report = Report(
    experimentId: string, experimentVersion: string, corpusRef: VersionedRef, policyRef: VersionedRef,
    ledgerRef: VersionedRef, adjudicationRef: Ref, outcome: Outcome, credentials: seq<Summary>, evaluatedAt: int)

  datatype Verdict = Reported(report: Report) | BindingsDiffer | EvidenceFailed(failures: seq<Failure>)

  // ----- the guards before any evidence is read -----

  function References(events: seq<Event>): (refs: seq<Ref>)
    ensures |refs| == |events|
    ensures forall i :: 0 <= i < |refs| ==> refs[i] == events[i].reference
  {
    seq(|events|, i requires 0 <= i < |events| => events[i].reference)
  }

  predicate Bindings(v: Inputs) {
    && v.plan.status == Frozen
    && v.plan.corpusRef == v.corpus.reference && v.plan.contentIds == v.corpus.contentIds
    && v.corpus.revocationPolicyRef == v.policy.reference
    && v.corpus.revocationLedgerRef == v.ledger.reference
    && v.ledger.credentialCorpusRef == v.corpus.predecessorRef
    && v.ledger.issuerRegistryRef == v.issuers.reference
    && v.ledger.revocationPolicyRef == v.policy.reference
    && v.credentialPolicy.issuerRegistryRef == v.issuers.reference
    && v.credentialPolicy.adjudicatorRegistryRef == v.adjudicators.reference
    && v.adjudicators.status == Accepted
    && v.issuers.status == Accepted
    && v.credentialPolicy.status == Accepted
    && v.policy.status == Accepted
    && v.ledger.status == Frozen
    && References(v.events) == v.ledger.eventRefs
    && |v.attestations| == |v.adjudicators.adjudicators|
  }

  // ----- lookups; a repeated key keeps its last entry -----

  function ByReference(attestations: seq<Attestation>, ref: Ref): (found: Option<Attestation>)
    ensures found.Some? ==> found.value in attestations && found.value.reference == ref
  {
    if attestations == [] then None
    else if Last(attestations).reference == ref then Some(Last(attestations))
    else ByReference(Front(attestations), ref)
  }

  function ByAdjudicator(attestations: seq<Attestation>, id: string): (found: Option<Attestation>)
    ensures found.Some? ==> found.value in attestations && found.value.adjudicatorId == id
    ensures found.None? ==> forall i :: 0 <= i < |attestations| ==> attestations[i].adjudicatorId != id
  {
    if attestations == [] then None
    else if Last(attestations).adjudicatorId == id then Some(Last(attestations))
    else ByAdjudicator(Front(attestations), id)
  }

  /** Why one event on its own is refused, in the order the validator asks. */
  function EventFailure(v: Inputs, e: Event): Option<Failure> {
    var attestation := ByReference(v.attestations, e.attestationRef);
    var issuer := v.issuers.Lookup(e.issuerId);
    if attestation.None? then Some(UnknownAttestation(e.eventId))
    else if e.adjudicatorId != attestation.value.adjudicatorId then Some(AdjudicatorDiffers(e.eventId))
    else if issuer.None? || issuer.value.revision != e.issuerRevision then Some(IssuerDiffers(e.eventId))
    else if v.policy.requireAttestationIssuer
            && (e.issuerId, e.issuerRevision) != (attestation.value.issuerId, attestation.value.issuerRevision)
      then Some(NotTheAttestingIssuer(e.eventId))
    else if e.effect !in v.policy.permittedEffects then Some(EffectNotPermitted(e.eventId))
    else None
  }

  /** The attestation a reference leads to stands at position `k`: a repeated reference keeps its last entry. */
  predicate LeadsTo(attestations: seq<Attestation>, ref: Ref, k: nat) {
    && k < |attestations| && attestations[k].reference == ref
    && forall j :: k < j < |attestations| ==> attestations[j].reference != ref
  }

  lemma {:induction false} ReferenceLeads(attestations: seq<Attestation>, ref: Ref)
    ensures match ByReference(attestations, ref)
            case None => forall k :: 0 <= k < |attestations| ==> attestations[k].reference != ref
            case Some(a) => exists k: nat :: LeadsTo(attestations, ref, k) && attestations[k] == a
  {
    if attestations != [] {
      var front := Front(attestations);
      ReferenceLeads(front, ref);
      if Last(attestations).reference == ref {
        assert LeadsTo(attestations, ref, |attestations| - 1);
      } else if ByReference(front, ref).Some? {
        var k: nat :| LeadsTo(front, ref, k) && front[k] == ByReference(front, ref).value;
        assert LeadsTo(attestations, ref, k);
      } else {
        assert forall k :: 0 <= k < |front| ==> attestations[k] == front[k];
      }
    }
  }

  lemma LeadsToOne(attestations: seq<Attestation>, ref: Ref, k: nat)
    requires LeadsTo(attestations, ref, k)
    ensures ByReference(attestations, ref) == Some(attestations[k])
  {
    ReferenceLeads(attestations, ref);
    assert attestations[k].reference == ref;
  }

  /** A registered issuer with exactly this revision. */
  ghost predicate Issues(issuers: IssuerRegistry, id: string, revision: string) {
    exists i :: i in issuers.issuers && i.id == id && i.revision == revision
  }

  lemma IssuerIsLookedUp(issuers: IssuerRegistry, id: string, revision: string)
    requires issuers.Constructed()
    ensures Issues(issuers, id, revision) <==> issuers.Lookup(id).Some? && issuers.Lookup(id).value.revision == revision
  {
    if Issues(issuers, id, revision) {
      var i :| i in issuers.issuers && i.id == id && i.revision == revision;
      var j :| 0 <= j < |issuers.issuers| && issuers.issuers[j] == i;
      var found := issuers.Lookup(id).value;
      var k :| 0 <= k < |issuers.issuers| && issuers.issuers[k] == found;
    }
  }

  /** An event speaks for this attestation: of its adjudicator, by its issuer, with a permitted effect. */
  ghost predicate SpeaksFor(v: Inputs, e: Event, a: Attestation) {
    && e.adjudicatorId == a.adjudicatorId && Issues(v.issuers, e.issuerId, e.issuerRevision)
    && (v.policy.requireAttestationIssuer ==> e.issuerId == a.issuerId && e.issuerRevision == a.issuerRevision)
    && e.effect in v.policy.permittedEffects
  }

  /** What each failure says of one event. */
  ghost predicate Complaint(v: Inputs, e: Event, f: Failure) {
    match f
    case UnknownAttestation(id) =>
      id == e.eventId && forall k :: 0 <= k < |v.attestations| ==> v.attestations[k].reference != e.attestationRef
    case AdjudicatorDiffers(id) =>
      && id == e.eventId
      && exists k: nat :: LeadsTo(v.attestations, e.attestationRef, k) && v.attestations[k].adjudicatorId != e.adjudicatorId
    case IssuerDiffers(id) => id == e.eventId && !Issues(v.issuers, e.issuerId, e.issuerRevision)
    case NotTheAttestingIssuer(id) =>
      && id == e.eventId && v.policy.requireAttestationIssuer
      && exists k: nat :: LeadsTo(v.attestations, e.attestationRef, k)
                          && (e.issuerId != v.attestations[k].issuerId || e.issuerRevision != v.attestations[k].issuerRevision)
    case EffectNotPermitted(id) => id == e.eventId && e.effect !in v.policy.permittedEffects
    case _ => false
  }

  /** An event is accepted exactly if it speaks for the attestation it refers to, and refused for a true reason. */
  lemma EventsAreAcceptedExactly(v: Inputs, e: Event)
    requires v.issuers.Constructed()
    ensures EventFailure(v, e).None? <==>
            exists k: nat :: LeadsTo(v.attestations, e.attestationRef, k) && SpeaksFor(v, e, v.attestations[k])
    ensures EventFailure(v, e).Some? ==> Complaint(v, e, EventFailure(v, e).value)
  {
    ReferenceLeads(v.attestations, e.attestationRef);
    IssuerIsLookedUp(v.issuers, e.issuerId, e.issuerRevision);
    forall k: nat | LeadsTo(v.attestations, e.attestationRef, k)
      ensures ByReference(v.attestations, e.attestationRef) == Some(v.attestations[k])
    {
      LeadsToOne(v.attestations, e.attestationRef, k);
    }
  }

  // ----- what an acceptable history is -----

  ghost predicate Covered(v: Inputs) {
    forall r :: r in v.adjudicators.adjudicators ==> ByAdjudicator(v.attestations, r.id).Some?
  }

  ghost predicate EventsAccepted(v: Inputs) {
    && DistinctIds(v.events)
    && forall i :: 0 <= i < |v.events| ==> EventFailure(v, v.events[i]).None?
  }

  /** The same of the first `k` events. */
  ghost predicate AcceptedUpTo(v: Inputs, k: nat)
    requires k <= |v.events|
  {
    && DistinctIds(v.events[..k])
    && forall i :: 0 <= i < k ==> EventFailure(v, v.events[i]).None?
  }

  ghost predicate ValidHistory(v: Inputs) {
    && Covered(v)
    && EventsAccepted(v)
    && (forall i :: 0 <= i < |v.events| ==> Linked(v.events, i))
    && (v.adjudication.adjudicatorId.Some? ==>
          exists r :: r in v.adjudicators.adjudicators && r.id == v.adjudication.adjudicatorId.value)
  }

  // ----- the decision -----

  function Reasons(policy: RevocationPolicy, status: CredentialStatus): seq<CredentialStatus> {
    if status in policy.abstainOn then [status] else []
  }

  function SummaryOf(policy: RevocationPolicy, at: int, attestation: Attestation, chain: seq<Event>): Summary {
    var applied := Effective(chain, at);
    var status := StatusAt(attestation.status, chain, at);
    Summary(
      attestation.adjudicatorId, attestation.reference, attestation.status, status, EventIds(applied),
      if applied == [] then None else Some(Last(applied).eventId), Reasons(policy, status))
  }

  function Summarize(v: Inputs, attestation: Attestation): Summary {
    SummaryOf(v.policy, v.evaluatedAt, attestation, Chain(v.events, attestation.adjudicatorId))
  }

  function Summaries(v: Inputs, records: seq<Adjudicator>): (summaries: seq<Summary>)
    requires forall i :: 0 <= i < |records| ==> ByAdjudicator(v.attestations, records[i].id).Some?
    ensures |summaries| == |records|
  {
    seq(|records|, i requires 0 <= i < |records| => Summarize(v, ByAdjudicator(v.attestations, records[i].id).value))
  }

  function OutcomeOf(summaries: seq<Summary>): Outcome {
    if exists s :: s in summaries && s.reasons != [] then Abstain else Execute
  }

  function Decision(v: Inputs): Report
    requires forall r :: r in v.adjudicators.adjudicators ==> ByAdjudicator(v.attestations, r.id).Some?
  {
    var summaries := Summaries(v, v.adjudicators.adjudicators);
    Report(
      v.plan.experimentId, v.plan.experimentVersion, v.corpus.reference, v.policy.reference, v.ledger.reference,
      v.adjudication.reference, OutcomeOf(summaries), summaries, v.evaluatedAt)
  }

  /** What the report's own constructor demands of its summaries. */
  ghost predicate ReportConstructed(r: Report) {
    && r.credentials != []
    && (forall i, j :: 0 <= i < j < |r.credentials| ==> r.credentials[i].adjudicatorId != r.credentials[j].adjudicatorId)
    && r.outcome == OutcomeOf(r.credentials)
  }

  /** Ledger references are unique and derive from event IDs, so the duplicate-event branch is dead. */
  lemma DuplicateEventIsDead(v: Inputs)
    requires Bindings(v) && v.ledger.Constructed() && forall e :: e in v.events ==> e.Constructed()
    ensures DistinctIds(v.events)
  {
    forall i, j | 0 <= i < j < |v.events| ensures v.events[i].eventId != v.events[j].eventId {
      assert v.ledger.eventRefs[i] == v.events[i].reference && v.ledger.eventRefs[j] == v.events[j].reference;
      assert v.events[i] in v.events && v.events[j] in v.events;
    }
  }

  // ----- no event is ignored -----

  function AttestedIds(attestations: seq<Attestation>): (ids: seq<string>)
    ensures |ids| == |attestations|
    ensures forall i :: 0 <= i < |ids| ==> ids[i] == attestations[i].adjudicatorId
  {
    seq(|attestations|, i requires 0 <= i < |attestations| => attestations[i].adjudicatorId)
  }

  /** Equal population sizes and full coverage leave each adjudicator exactly one attestation. */
  lemma AttestationsAreExact(v: Inputs)
    requires v.adjudicators.Constructed() && |v.attestations| == |v.adjudicators.adjudicators| && Covered(v)
    ensures Distinct(AttestedIds(v.attestations))
    ensures forall a :: a in v.attestations ==>
              a.adjudicatorId in v.adjudicators.Ids() && ByAdjudicator(v.attestations, a.adjudicatorId) == Some(a)
  {
    var names, cover := v.adjudicators.Ids(), AttestedIds(v.attestations);
    forall n | n in names ensures n in cover {
      var i :| 0 <= i < |names| && names[i] == n;
      assert v.adjudicators.adjudicators[i] in v.adjudicators.adjudicators;
      var a := ByAdjudicator(v.attestations, n).value;
      var j :| 0 <= j < |v.attestations| && v.attestations[j] == a;
      assert cover[j] == n;
    }
    CoverIsExact(names, cover);
    forall a | a in v.attestations
      ensures a.adjudicatorId in names && ByAdjudicator(v.attestations, a.adjudicatorId) == Some(a)
    {
      var i :| 0 <= i < |v.attestations| && v.attestations[i] == a;
      assert cover[i] == a.adjudicatorId && cover[i] in cover;
      var found := ByAdjudicator(v.attestations, a.adjudicatorId).value;
      var j :| 0 <= j < |v.attestations| && v.attestations[j] == found;
      assert cover[j] == cover[i];
    }
  }

  /**
  In an accepted ledger every event stands in the chain of exactly one registered adjudicator,
  names that adjudicator's own attestation, and keeps its ledger order there.
  */
  lemma NoEventIsIgnored(v: Inputs, i: nat)
    requires v.adjudicators.Constructed() && Bindings(v) && ValidHistory(v) && i < |v.events|
    ensures var id := v.events[i].adjudicatorId;
            && id in v.adjudicators.Ids()
            && ByAdjudicator(v.attestations, id).Some?
            && ByAdjudicator(v.attestations, id).value.reference == v.events[i].attestationRef
            && i in Positions(v.events, id)
            && (forall other :: other != id ==> i !in Positions(v.events, other))
            && (forall k, l :: 0 <= k < l < |Positions(v.events, id)| ==> Positions(v.events, id)[k] < Positions(v.events, id)[l])
  {
    var e := v.events[i];
    AttestationsAreExact(v);
    assert EventFailure(v, e).None?;
    PositionsOfChain(v.events, e.adjudicatorId);
    forall other | other != e.adjudicatorId ensures i !in Positions(v.events, other) {
      PositionsOfChain(v.events, other);
    }
  }

  /** Chains of registered adjudicators are linear exactly when every event is linked. */
  lemma ChainsLinearIffLinked(v: Inputs)
    requires v.adjudicators.Constructed() && |v.attestations| == |v.adjudicators.adjudicators|
    requires Covered(v) && EventsAccepted(v)
    ensures (forall r :: r in v.adjudicators.adjudicators ==> LinearChain(Chain(v.events, r.id))) <==>
            (forall i :: 0 <= i < |v.events| ==> Linked(v.events, i))
  {
    AttestationsAreExact(v);
    forall r | r in v.adjudicators.adjudicators
      ensures LinearChain(Chain(v.events, r.id)) <==> AllLinked(v.events, r.id)
    {
      LinearChainIsLinked(v.events, r.id);
    }
    forall i | 0 <= i < |v.events|
      ensures exists r :: r in v.adjudicators.adjudicators && r.id == v.events[i].adjudicatorId
    {
      assert EventFailure(v, v.events[i]).None?;
      var ids := v.adjudicators.Ids();
      var k :| 0 <= k < |ids| && ids[k] == v.events[i].adjudicatorId;
      assert v.adjudicators.adjudicators[k].id == v.events[i].adjudicatorId;
    }
  }

  // ----- the validator -----

  function ChainIn(chains: map<string, seq<Event>>, id: string): seq<Event> {
    if id in chains then chains[id] else []
  }

  ghost function SeenIds(events: seq<Event>): set<string> {
    set e | e in events :: e.eventId
  }

  /** What a failure recorded while grouping says of the ledger. */
  ghost predicate EventFault(v: Inputs, f: Failure) {
    if f.DuplicateEvent? then
      exists i, j :: 0 <= i < j < |v.events| && v.events[i].eventId == v.events[j].eventId == f.id
    else
      exists i :: 0 <= i < |v.events| && EventFailure(v, v.events[i]) == Some(f)
  }

  lemma RepeatIsAFault(v: Inputs, k: nat)
    requires k < |v.events| && v.events[k].eventId in SeenIds(v.events[..k])
    ensures EventFault(v, DuplicateEvent(v.events[k].eventId))
  {
    var e :| e in v.events[..k] && e.eventId == v.events[k].eventId;
    var i :| 0 <= i < k && v.events[..k][i] == e;
    assert v.events[i].eventId == v.events[k].eventId;
  }

  /** The events that get into a group: no failure of their own, and the first of their ID. */
  ghost function Kept(v: Inputs, k: nat): seq<Event>
    requires k <= |v.events|
  {
    if k == 0 then []
    else if v.events[k - 1].eventId !in SeenIds(v.events[..k - 1]) && EventFailure(v, v.events[k - 1]).None? then
      Kept(v, k - 1) + [v.events[k - 1]]
    else Kept(v, k - 1)
  }

  /** The inputs as the chains see them. */
  ghost function Filtered(v: Inputs): Inputs {
    v.(events := Kept(v, |v.events|))
  }

  lemma {:induction false} AllAreKept(v: Inputs, k: nat)
    requires k <= |v.events| && EventsAccepted(v)
    ensures Kept(v, k) == v.events[..k]
  {
    if k > 0 {
      AllAreKept(v, k - 1);
      assert v.events[..k] == v.events[..k - 1] + [v.events[k - 1]];
      forall e | e in v.events[..k - 1] ensures e.eventId != v.events[k - 1].eventId {
        var i :| 0 <= i < k - 1 && v.events[..k - 1][i] == e;
        assert v.events[i].eventId != v.events[k - 1].eventId;
      }
    }
  }

  ghost predicate Grouped(events: seq<Event>, chains: map<string, seq<Event>>) {
    forall id :: ChainIn(chains, id) == Chain(events, id)
  }

  lemma GroupedSnoc(events: seq<Event>, chains: map<string, seq<Event>>, event: Event)
    requires Grouped(events, chains)
    ensures Grouped(events + [event], chains[event.adjudicatorId := ChainIn(chains, event.adjudicatorId) + [event]])
  {
    var longer := events + [event];
    assert Front(longer) == events && Last(longer) == event;
    var next := chains[event.adjudicatorId := ChainIn(chains, event.adjudicatorId) + [event]];
    forall id ensures ChainIn(next, id) == Chain(longer, id) {
      assert ChainIn(chains, id) == Chain(events, id);
    }
  }

  lemma SeenNext(events: seq<Event>, k: nat)
    requires k < |events|
    ensures SeenIds(events[..k + 1]) == SeenIds(events[..k]) + {events[k].eventId}
  {
    assert events[..k + 1] == events[..k] + [events[k]];
  }

  /** Why one event is left out, given the IDs seen before it. */
  function Omission(v: Inputs, eventIds: set<string>, event: Event): Option<Failure> {
    if event.eventId in eventIds then Some(DuplicateEvent(event.eventId)) else EventFailure(v, event)
  }

  /** The state of the grouping loop after `k` events. */
  ghost predicate GroupedUpTo(
    v: Inputs, k: nat, eventIds: set<string>, chains: map<string, seq<Event>>, failures: seq<Failure>)
    requires k <= |v.events|
  {
    && eventIds == SeenIds(v.events[..k])
    && (failures == [] <==> AcceptedUpTo(v, k))
    && (forall f :: f in failures ==> EventFault(v, f))
    && Grouped(Kept(v, k), chains)
  }

  lemma NothingGrouped(v: Inputs)
    ensures GroupedUpTo(v, 0, {}, map[], [])
  {
  }

  lemma OmittedNext(
    v: Inputs, k: nat, eventIds: set<string>, chains: map<string, seq<Event>>, failures: seq<Failure>, f: Failure)
    requires k < |v.events| && GroupedUpTo(v, k, eventIds, chains, failures)
    requires Omission(v, eventIds, v.events[k]) == Some(f)
    ensures GroupedUpTo(v, k + 1, eventIds + {v.events[k].eventId}, chains, failures + [f])
  {
    OmittedIsLeftOut(v, k, eventIds);
    SeenNext(v.events, k);
    OmissionIsAFault(v, k, eventIds);
  }

  lemma OmittedIsLeftOut(v: Inputs, k: nat, eventIds: set<string>)
    requires k < |v.events| && eventIds == SeenIds(v.events[..k]) && Omission(v, eventIds, v.events[k]).Some?
    ensures !AcceptedUpTo(v, k + 1) && Kept(v, k + 1) == Kept(v, k)
  {
    AcceptedExtends(v, k);
  }

  lemma OmissionIsAFault(v: Inputs, k: nat, eventIds: set<string>)
    requires k < |v.events| && eventIds == SeenIds(v.events[..k]) && Omission(v, eventIds, v.events[k]).Some?
    ensures EventFault(v, Omission(v, eventIds, v.events[k]).value)
  {
    if v.events[k].eventId in eventIds {
      RepeatIsAFault(v, k);
    } else {
      assert EventFailure(v, v.events[k]).Some?;
    }
  }

  lemma KeptNext(v: Inputs, k: nat, eventIds: set<string>, chains: map<string, seq<Event>>, failures: seq<Failure>)
    requires k < |v.events| && GroupedUpTo(v, k, eventIds, chains, failures) && Omission(v, eventIds, v.events[k]).None?
    ensures var e := v.events[k];
            var next := chains[e.adjudicatorId := ChainIn(chains, e.adjudicatorId) + [e]];
            GroupedUpTo(v, k + 1, eventIds + {e.eventId}, next, failures)
  {
    AcceptedExtends(v, k);
    SeenNext(v.events, k);
    GroupedSnoc(Kept(v, k), chains, v.events[k]);
  }

  lemma GroupedAtEnd(v: Inputs, eventIds: set<string>, chains: map<string, seq<Event>>, failures: seq<Failure>)
    requires GroupedUpTo(v, |v.events|, eventIds, chains, failures)
    ensures failures == [] <==> EventsAccepted(v)
    ensures forall f :: f in failures ==> EventFault(v, f)
    ensures Grouped(Filtered(v).events, chains) && (failures == [] ==> Filtered(v) == v)
  {
    assert v.events[..|v.events|] == v.events;
    if failures == [] {
      AllAreKept(v, |v.events|);
    }
  }

  /** Group accepted events by adjudicator; a bad event is recorded, truthfully, and skipped. */
  method GroupEvents(v: Inputs) returns (chains: map<string, seq<Event>>, failures: seq<Failure>)
    ensures failures == [] <==> EventsAccepted(v)
    ensures forall f :: f in failures ==> EventFault(v, f)
    ensures Grouped(Filtered(v).events, chains)
    ensures failures == [] ==> Filtered(v) == v
  {
    chains, failures := map[], [];
    var eventIds: set<string> := {};
    NothingGrouped(v);
    for k := 0 to |v.events|
      invariant GroupedUpTo(v, k, eventIds, chains, failures)
    {
      var event := v.events[k];
      var omission := Omission(v, eventIds, event);
      if omission.Some? {
        OmittedNext(v, k, eventIds, chains, failures, omission.value);
        failures := failures + [omission.value];
      } else {
        KeptNext(v, k, eventIds, chains, failures);
        chains := chains[event.adjudicatorId := ChainIn(chains, event.adjudicatorId) + [event]];
      }
      eventIds := eventIds + {event.eventId};
    }
    GroupedAtEnd(v, eventIds, chains, failures);
  }

  lemma AcceptedExtends(v: Inputs, k: nat)
    requires k < |v.events|
    ensures AcceptedUpTo(v, k + 1) <==>
            && AcceptedUpTo(v, k)
            && v.events[k].eventId !in SeenIds(v.events[..k])
            && EventFailure(v, v.events[k]).None?
  {
    DistinctExtends(v.events, k);
  }

  lemma DistinctExtends(events: seq<Event>, k: nat)
    requires k < |events|
    ensures DistinctIds(events[..k + 1]) <==> DistinctIds(events[..k]) && events[k].eventId !in SeenIds(events[..k])
  {
    var shorter, longer := events[..k], events[..k + 1];
    assert forall i :: 0 <= i < k ==> longer[i] == shorter[i];
    if events[k].eventId in SeenIds(shorter) {
      var e :| e in shorter && e.eventId == events[k].eventId;
      var i :| 0 <= i < k && shorter[i] == e;
      assert longer[i].eventId == longer[k].eventId;
    } else {
      assert forall i :: 0 <= i < k ==> shorter[i] in shorter;
    }
  }

  /** What a failure recorded while checking a chain says of it. */
  ghost predicate ChainFault(chain: seq<Event>, f: Failure) {
    match f
    case FirstSupersedes(id) => chain != [] && chain[0].eventId == id && chain[0].supersedes != None
    case NotImmediateSuccessor(id) =>
      exists k :: 0 < k < |chain| && chain[k].eventId == id && chain[k].supersedes != Some(chain[k - 1].eventId)
    case EffectivePrecedes(id) =>
      exists k :: 0 < k < |chain| && chain[k].eventId == id && chain[k].effectiveAt < chain[k - 1].effectiveAt
    case _ => false
  }

  /** Each event must supersede its immediate predecessor and not predate it. */
  method CheckChain(chain: seq<Event>) returns (failures: seq<Failure>)
    ensures failures == [] <==> LinearChain(chain)
    ensures forall f :: f in failures ==> ChainFault(chain, f)
  {
    failures := [];
    var previous: Option<Event> := None;
    for k := 0 to |chain|
      invariant previous == if k == 0 then None else Some(chain[k - 1])
      invariant failures == [] <==> LinearChain(chain[..k])
      invariant forall f :: f in failures ==> ChainFault(chain, f)
    {
      var event := chain[k];
      assert Front(chain[..k + 1]) == chain[..k] && Last(chain[..k + 1]) == event;
      if previous.None? {
        if event.supersedes != None {
          failures := failures + [FirstSupersedes(event.eventId)];
        }
      } else {
        if event.supersedes != Some(previous.value.eventId) {
          failures := failures + [NotImmediateSuccessor(event.eventId)];
        }
        if event.effectiveAt < previous.value.effectiveAt {
          failures := failures + [EffectivePrecedes(event.eventId)];
        }
      }
      previous := Some(event);
    }
    assert chain[..|chain|] == chain;
  }

  /** Fold the chain up to the evaluation time. */
  method FoldChain(base: CredentialStatus, chain: seq<Event>, at: int)
    returns (status: CredentialStatus, applied: seq<string>, effectiveId: Option<string>)
    ensures status == StatusAt(base, chain, at)
    ensures applied == EventIds(Effective(chain, at))
    ensures effectiveId == if Effective(chain, at) == [] then None else Some(Last(Effective(chain, at)).eventId)
  {
    status, applied, effectiveId := base, [], None;
    for k := 0 to |chain|
      invariant status == StatusAt(base, chain[..k], at)
      invariant applied == EventIds(Effective(chain[..k], at))
      invariant effectiveId == if Effective(chain[..k], at) == [] then None else Some(Last(Effective(chain[..k], at)).eventId)
    {
      var event := chain[k];
      assert Front(chain[..k + 1]) == chain[..k] && Last(chain[..k + 1]) == event;
      if event.effectiveAt <= at {
        status, effectiveId := event.effect, Some(event.eventId);
        applied := applied + [event.eventId];
      }
    }
    assert chain[..|chain|] == chain;
  }

  ghost predicate RecordsSound(v: Inputs, k: nat)
    requires k <= |v.adjudicators.adjudicators|
  {
    forall i :: 0 <= i < k ==>
      var r := v.adjudicators.adjudicators[i];
      ByAdjudicator(v.attestations, r.id).Some? && LinearChain(Chain(v.events, r.id))
  }

  /** Check one adjudicator's chain and fold it. */
  method SummarizeChain(v: Inputs, attestation: Attestation, chain: seq<Event>)
    returns (summary: Summary, failures: seq<Failure>)
    ensures failures == [] <==> LinearChain(chain)
    ensures forall f :: f in failures ==> ChainFault(chain, f)
    ensures summary == SummaryOf(v.policy, v.evaluatedAt, attestation, chain)
  {
    failures := CheckChain(chain);
    var status, applied, effectiveId := FoldChain(attestation.status, chain, v.evaluatedAt);
    summary := Summary(
      attestation.adjudicatorId, attestation.reference, attestation.status, status, applied, effectiveId,
      Reasons(v.policy, status));
  }

  /** The k-th summary is the one the registry order asks for. */
  ghost predicate SummaryAt(v: Inputs, summaries: seq<Summary>, k: nat)
    requires k < |v.adjudicators.adjudicators| && k < |summaries|
  {
    var attestation := ByAdjudicator(v.attestations, v.adjudicators.adjudicators[k].id);
    attestation.Some? && summaries[k] == Summarize(v, attestation.value)
  }

  ghost predicate SummariesAt(v: Inputs, summaries: seq<Summary>, n: nat)
    requires n <= |v.adjudicators.adjudicators|
  {
    |summaries| == n && forall k :: 0 <= k < n ==> SummaryAt(v, summaries, k)
  }

  lemma SummariesNext(v: Inputs, summaries: seq<Summary>, n: nat, next: Summary)
    requires n < |v.adjudicators.adjudicators| && SummariesAt(v, summaries, n)
    requires ByAdjudicator(v.attestations, v.adjudicators.adjudicators[n].id).Some?
    requires next == Summarize(v, ByAdjudicator(v.attestations, v.adjudicators.adjudicators[n].id).value)
    ensures SummariesAt(v, summaries + [next], n + 1)
  {
    forall k | 0 <= k < n + 1 ensures SummaryAt(v, summaries + [next], k) {
      assert k < n ==> SummaryAt(v, summaries, k);
    }
  }

  lemma SummariesComplete(v: Inputs, summaries: seq<Summary>)
    requires SummariesAt(v, summaries, |v.adjudicators.adjudicators|)
    ensures Covered(v) && summaries == Summaries(v, v.adjudicators.adjudicators)
  {
    var records := v.adjudicators.adjudicators;
    forall k | 0 <= k < |records| ensures ByAdjudicator(v.attestations, records[k].id).Some? {
      assert SummaryAt(v, summaries, k);
    }
    forall k | 0 <= k < |records| ensures summaries[k] == Summaries(v, records)[k] {
      assert SummaryAt(v, summaries, k);
    }
  }

  /** What a failure recorded for one registered adjudicator says of the inputs. */
  ghost predicate RecordFaultOf(v: Inputs, r: Adjudicator, f: Failure) {
    if ByAdjudicator(v.attestations, r.id).None? then f == AttestationAbsent(r.id)
    else ChainFault(Chain(v.events, r.id), f)
  }

  ghost predicate RecordFault(v: Inputs, f: Failure) {
    exists r :: r in v.adjudicators.adjudicators && RecordFaultOf(v, r, f)
  }

  /** A registered adjudicator of this ID has an attestation. */
  ghost predicate Attested(v: Inputs, n: nat, id: string)
    requires n <= |v.adjudicators.adjudicators|
  {
    exists i :: 0 <= i < n && v.adjudicators.adjudicators[i].id == id && ByAdjudicator(v.attestations, id).Some?
  }

  /** The summaries so far are those of the attested adjudicators so far. */
  ghost predicate CoversAttested(v: Inputs, summaries: seq<Summary>, n: nat)
    requires n <= |v.adjudicators.adjudicators|
  {
    forall id :: id in CoveredIds(summaries) <==> Attested(v, n, id)
  }

  lemma CoversNext(v: Inputs, summaries: seq<Summary>, n: nat, next: Summary)
    requires n < |v.adjudicators.adjudicators| && CoversAttested(v, summaries, n)
    requires next.adjudicatorId == v.adjudicators.adjudicators[n].id
    requires ByAdjudicator(v.attestations, next.adjudicatorId).Some?
    ensures CoversAttested(v, summaries + [next], n + 1)
  {
    assert CoveredIds(summaries + [next]) == CoveredIds(summaries) + {next.adjudicatorId};
    forall id ensures Attested(v, n + 1, id) <==> Attested(v, n, id) || id == next.adjudicatorId {
    }
  }

  lemma CoversSkip(v: Inputs, summaries: seq<Summary>, n: nat)
    requires n < |v.adjudicators.adjudicators| && CoversAttested(v, summaries, n)
    requires ByAdjudicator(v.attestations, v.adjudicators.adjudicators[n].id).None?
    ensures CoversAttested(v, summaries, n + 1)
  {
    forall id ensures Attested(v, n + 1, id) <==> Attested(v, n, id) {
    }
  }

  /**
  One summary per attested adjudicator, with every chain checked.  `u` is the inputs as the chains
  see them; every failure recorded is true of it.
  */
  method SummarizeRegistry(v: Inputs, chains: map<string, seq<Event>>, ghost u: Inputs)
    returns (summaries: seq<Summary>, failures: seq<Failure>)
    requires Grouped(u.events, chains) && v.(events := u.events) == u
    ensures failures == [] <==> RecordsSound(u, |v.adjudicators.adjudicators|)
    ensures forall f :: f in failures ==> RecordFault(u, f)
    ensures CoversAttested(u, summaries, |v.adjudicators.adjudicators|)
    ensures failures == [] ==> Covered(u) && summaries == Summaries(u, v.adjudicators.adjudicators)
  {
    summaries, failures := [], [];
    for k := 0 to |v.adjudicators.adjudicators|
      invariant failures == [] <==> RecordsSound(u, k)
      invariant forall f :: f in failures ==> RecordFault(u, f)
      invariant CoversAttested(u, summaries, k)
      invariant failures == [] ==> SummariesAt(u, summaries, k)
    {
      var record := v.adjudicators.adjudicators[k];
      var attestation := ByAdjudicator(v.attestations, record.id);
      if attestation.None? {
        assert RecordFaultOf(u, record, AttestationAbsent(record.id));
        CoversSkip(u, summaries, k);
        failures := failures + [AttestationAbsent(record.id)];
        continue;
      }
      var summary, more := SummarizeChain(v, attestation.value, ChainIn(chains, record.id));
      FaultsOfOne(u, record, more);
      CoversNext(u, summaries, k, summary);
      if failures == [] {
        SummariesNext(u, summaries, k, summary);
      }
      assert failures + more == [] <==> failures == [] && more == [];
      failures := failures + more;
      summaries := summaries + [summary];
    }
    if failures == [] {
      SummariesComplete(u, summaries);
    }
  }

  lemma FaultsOfOne(v: Inputs, r: Adjudicator, failures: seq<Failure>)
    requires r in v.adjudicators.adjudicators && ByAdjudicator(v.attestations, r.id).Some?
    requires forall f :: f in failures ==> ChainFault(Chain(v.events, r.id), f)
    ensures forall f :: f in failures ==> RecordFault(v, f)
  {
    forall f | f in failures ensures RecordFault(v, f) {
      assert RecordFaultOf(v, r, f);
    }
  }

  /**
  What each reported failure says: of one event, of one adjudicator's chain of the events that were
  kept, or that the adjudication names nobody registered and attested.
  */
  ghost predicate Explains(v: Inputs, f: Failure) {
    || EventFault(v, f)
    || RecordFault(Filtered(v), f)
    || (f == AdjudicationUncovered && v.adjudication.adjudicatorId.Some?
        && !Attested(v, |v.adjudicators.adjudicators|, v.adjudication.adjudicatorId.value))
  }

  lemma EverybodyAttested(v: Inputs)
    requires Covered(v)
    ensures forall id :: Attested(v, |v.adjudicators.adjudicators|, id) <==>
              exists r :: r in v.adjudicators.adjudicators && r.id == id
  {
    var records := v.adjudicators.adjudicators;
    forall id ensures Attested(v, |records|, id) <==> exists r :: r in records && r.id == id {
      if r :| r in records && r.id == id {
        var i :| 0 <= i < |records| && records[i] == r;
        assert records[i].id == id;
      }
    }
  }

  /** All events accepted, all chains linear, and the adjudicator named: together, a valid history. */
  lemma ChecksAreExact(v: Inputs, accepted: bool, sound: bool)
    requires v.adjudicators.Constructed() && Bindings(v)
    requires accepted <==> EventsAccepted(v)
    requires accepted ==> (sound <==> RecordsSound(v, |v.adjudicators.adjudicators|))
    ensures ValidHistory(v) <==>
            && accepted && sound
            && (v.adjudication.adjudicatorId.Some? ==>
                  Attested(v, |v.adjudicators.adjudicators|, v.adjudication.adjudicatorId.value))
  {
    if Covered(v) {
      EverybodyAttested(v);
      if accepted {
        ChainsLinearIffLinked(v);
      }
    }
  }

  /** Everything the validator learns from the evidence. */
  method CheckHistory(v: Inputs) returns (summaries: seq<Summary>, failures: seq<Failure>)
    requires v.adjudicators.Constructed() && Bindings(v)
    ensures failures == [] <==> ValidHistory(v)
    ensures failures == [] ==> Covered(v) && summaries == Summaries(v, v.adjudicators.adjudicators)
    ensures forall f :: f in failures ==> Explains(v, f)
  {
    var eventFailures, recordFailures: seq<Failure>;
    var chains: map<string, seq<Event>>;
    chains, eventFailures := GroupEvents(v);
    summaries, recordFailures := SummarizeRegistry(v, chains, Filtered(v));
    ChecksAreExact(v, eventFailures == [], recordFailures == []);
    failures := eventFailures + recordFailures;
    if v.adjudication.adjudicatorId.Some? && v.adjudication.adjudicatorId.value !in CoveredIds(summaries) {
      failures := failures + [AdjudicationUncovered];
    }
  }

  /**
  Returns a report for exactly the inputs whose references agree and whose history is valid, and
  that report is the declarative as-of decision.  Otherwise every failure it lists is true.
  */
  method Validate(v: Inputs) returns (verdict: Verdict)
    requires v.adjudicators.Constructed()
    ensures verdict.BindingsDiffer? <==> !Bindings(v)
    ensures verdict.Reported? <==> Bindings(v) && ValidHistory(v)
    ensures verdict.Reported? ==> verdict.report == Decision(v) && ReportConstructed(verdict.report)
    ensures verdict.Reported? ==> (verdict.report.outcome == Abstain <==> SomebodyAbstains(v))
    ensures verdict.EvidenceFailed? ==> verdict.failures != [] && forall f :: f in verdict.failures ==> Explains(v, f)
  {
    if !Bindings(v) {
      return BindingsDiffer;
    }
    var summaries, failures := CheckHistory(v);
    if failures != [] {
      return EvidenceFailed(failures);
    }
    DecisionIsConstructed(v);
    OutcomeByLedger(v);
    var outcome := OutcomeOf(summaries);
    return Reported(Report(
      v.plan.experimentId, v.plan.experimentVersion, v.corpus.reference, v.policy.reference, v.ledger.reference,
      v.adjudication.reference, outcome, summaries, v.evaluatedAt));
  }

  // ----- what the report says, read off the ledger itself -----

  /** An adjudicator's status at the evaluation time, from attestation and ledger positions alone. */
  ghost predicate StatusInLedger(v: Inputs, id: string, status: CredentialStatus) {
    exists a :: a in v.attestations && a.adjudicatorId == id
                && HasStatus(v.events, id, v.evaluatedAt, a.status, status)
  }

  /** The ledger shows this adjudicator in a status the policy abstains on. */
  ghost predicate Abstaining(v: Inputs, id: string) {
    exists status :: status in v.policy.abstainOn && StatusInLedger(v, id, status)
  }

  /** Some registered adjudicator stands in such a status. */
  ghost predicate SomebodyAbstains(v: Inputs) {
    exists r :: r in v.adjudicators.adjudicators && Abstaining(v, r.id)
  }

  /** One summary, as attestation and ledger positions give it. */
  ghost predicate SummaryInLedger(v: Inputs, r: Adjudicator, s: Summary) {
    && s.adjudicatorId == r.id
    && (exists a :: a in v.attestations && a.adjudicatorId == r.id
                    && s.attestationRef == a.reference && s.baseStatus == a.status)
    && StatusInLedger(v, r.id, s.effectiveStatus)
    && (s.effectiveStatus in v.policy.abstainOn ==> s.reasons == [s.effectiveStatus])
    && (s.effectiveStatus !in v.policy.abstainOn ==> s.reasons == [])
    && (match s.effectiveEventId
        case None => NoneInEffect(v.events, r.id, v.evaluatedAt)
        case Some(id) =>
          exists i: nat :: LastInEffect(v.events, r.id, v.evaluatedAt, i) && v.events[i].eventId == id)
  }

  /** The attestation that was looked up is the only one of that adjudicator, so the ledger gives one status. */
  lemma StatusIsLookedUp(v: Inputs, a: Attestation, id: string, status: CredentialStatus)
    requires v.adjudicators.Constructed() && |v.attestations| == |v.adjudicators.adjudicators| && Covered(v)
    requires ByAdjudicator(v.attestations, id) == Some(a)
    ensures StatusInLedger(v, id, status) <==> status == StatusAt(a.status, Chain(v.events, id), v.evaluatedAt)
  {
    AttestationsAreExact(v);
    forall b | b in v.attestations && b.adjudicatorId == id ensures b == a {
      assert ByAdjudicator(v.attestations, b.adjudicatorId) == Some(b);
    }
    StatusByPosition(v.events, id, v.evaluatedAt, a.status, status);
  }

  /** Every summary is the one its adjudicator's attestation and ledger positions give. */
  lemma SummariesReadTheLedger(v: Inputs, k: nat)
    requires v.adjudicators.Constructed() && Bindings(v) && Covered(v) && k < |v.adjudicators.adjudicators|
    ensures SummaryInLedger(v, v.adjudicators.adjudicators[k], Decision(v).credentials[k])
  {
    var r := v.adjudicators.adjudicators[k];
    var a := ByAdjudicator(v.attestations, r.id).value;
    var s := Decision(v).credentials[k];
    assert s == Summarize(v, a);
    StatusIsLookedUp(v, a, r.id, s.effectiveStatus);
    EffectiveByPosition(v.events, r.id, v.evaluatedAt);
  }

  lemma ReasonsByLedger(v: Inputs, k: nat)
    requires v.adjudicators.Constructed() && Bindings(v) && Covered(v) && k < |v.adjudicators.adjudicators|
    ensures Decision(v).credentials[k].reasons != [] <==> Abstaining(v, v.adjudicators.adjudicators[k].id)
  {
    SummariesReadTheLedger(v, k);
    var id := v.adjudicators.adjudicators[k].id;
    var a := ByAdjudicator(v.attestations, id).value;
    var s := Decision(v).credentials[k];
    forall status | StatusInLedger(v, id, status) ensures status == s.effectiveStatus {
      StatusIsLookedUp(v, a, id, status);
      StatusIsLookedUp(v, a, id, s.effectiveStatus);
    }
  }

  /**
  The decision abstains exactly if some registered adjudicator's status is one the policy abstains
  on: the effect of that adjudicator's last event in effect, or the attested status without one.
  */
  lemma OutcomeByLedger(v: Inputs)
    requires v.adjudicators.Constructed() && Bindings(v) && Covered(v)
    ensures Decision(v).outcome == Abstain <==> SomebodyAbstains(v)
  {
    var records := v.adjudicators.adjudicators;
    forall k | 0 <= k < |records|
      ensures Decision(v).credentials[k].reasons != [] <==> Abstaining(v, records[k].id)
    {
      ReasonsByLedger(v, k);
    }
    SomeReasonAbstains(Decision(v).credentials);
    if SomebodyAbstains(v) {
      var r :| r in records && Abstaining(v, r.id);
      var k :| 0 <= k < |records| && records[k] == r;
      assert Decision(v).credentials[k].reasons != [];
    }
  }

  lemma SomeReasonAbstains(summaries: seq<Summary>)
    ensures OutcomeOf(summaries) == Abstain <==> exists k :: 0 <= k < |summaries| && summaries[k].reasons != []
  {
    if k :| 0 <= k < |summaries| && summaries[k].reasons != [] {
      assert summaries[k] in summaries;
    }
  }

  /** Every registered adjudicator is active, as far as the ledger shows. */
  ghost predicate AllActive(v: Inputs) {
    forall r :: r in v.adjudicators.adjudicators ==> StatusInLedger(v, r.id, Active)
  }

  lemma OnlyActiveExecutes(v: Inputs, r: Adjudicator)
    requires v.adjudicators.Constructed() && |v.attestations| == |v.adjudicators.adjudicators| && Covered(v)
    requires v.policy.Constructed() && r in v.adjudicators.adjudicators
    ensures Abstaining(v, r.id) || StatusInLedger(v, r.id, Active)
    ensures Active !in v.policy.abstainOn ==> !(Abstaining(v, r.id) && StatusInLedger(v, r.id, Active))
  {
    var a := ByAdjudicator(v.attestations, r.id).value;
    var status := StatusAt(a.status, Chain(v.events, r.id), v.evaluatedAt);
    StatusIsLookedUp(v, a, r.id, status);
    forall other | StatusInLedger(v, r.id, other) ensures other == status {
      StatusIsLookedUp(v, a, r.id, other);
    }
    assert status == Active || status in v.policy.abstainOn;
  }

  /**
  Under a policy its constructor accepts, execution means that every registered adjudicator is active
  by the ledger, and the other way round unless the policy abstains on active credentials too; and
  every accepted event was issued by the issuer of the attestation it is about.  No effect is forbidden.
  */
  lemma ConstructedPolicyIsStrict(v: Inputs)
    requires v.adjudicators.Constructed() && v.issuers.Constructed() && v.policy.Constructed()
    requires Bindings(v) && ValidHistory(v)
    ensures Decision(v).outcome == Execute ==> AllActive(v)
    ensures Active !in v.policy.abstainOn && AllActive(v) ==> Decision(v).outcome == Execute
    ensures forall e :: e in v.events ==>
              exists a :: a in v.attestations && a.reference == e.attestationRef
                          && a.issuerId == e.issuerId && a.issuerRevision == e.issuerRevision
    ensures forall effect :: effect in v.policy.permittedEffects
  {
    OutcomeByLedger(v);
    forall effect ensures effect in v.policy.permittedEffects {
      assert effect == Active || effect == Suspended || effect == Revoked;
    }
    forall r | r in v.adjudicators.adjudicators
      ensures Abstaining(v, r.id) || StatusInLedger(v, r.id, Active)
      ensures Active !in v.policy.abstainOn ==> !(Abstaining(v, r.id) && StatusInLedger(v, r.id, Active))
    {
      OnlyActiveExecutes(v, r);
    }
    forall e | e in v.events
      ensures exists a :: a in v.attestations && a.reference == e.attestationRef
                          && a.issuerId == e.issuerId && a.issuerRevision == e.issuerRevision
    {
      EventsAreAcceptedExactly(v, e);
      var i :| 0 <= i < |v.events| && v.events[i] == e;
      assert EventFailure(v, v.events[i]).None?;
      var k: nat :| LeadsTo(v.attestations, e.attestationRef, k) && SpeaksFor(v, e, v.attestations[k]);
      assert v.attestations[k] in v.attestations;
    }
  }

  /**
  The report names the experiment and the records that plan and corpus bind it to; every one of them
  is in force, and where two of them name a third they name the same.
  */
  lemma ReportNamesItsRecords(v: Inputs)
    requires v.adjudicators.Constructed() && Bindings(v) && Covered(v)
    ensures var r := Decision(v);
            && r.experimentId == v.plan.experimentId && r.experimentVersion == v.plan.experimentVersion
            && r.corpusRef == v.plan.corpusRef && r.policyRef == v.corpus.revocationPolicyRef
            && r.ledgerRef == v.corpus.revocationLedgerRef && r.adjudicationRef == v.adjudication.reference
            && r.evaluatedAt == v.evaluatedAt
            && |r.credentials| == |v.adjudicators.adjudicators|
    ensures v.plan.status == Frozen && v.ledger.status == Frozen && v.policy.status == Accepted
    ensures v.adjudicators.status == Accepted && v.issuers.status == Accepted && v.credentialPolicy.status == Accepted
    ensures v.ledger.revocationPolicyRef == v.corpus.revocationPolicyRef
    ensures v.ledger.issuerRegistryRef == v.credentialPolicy.issuerRegistryRef == v.issuers.reference
    ensures v.credentialPolicy.adjudicatorRegistryRef == v.adjudicators.reference
    ensures v.ledger.credentialCorpusRef == v.corpus.predecessorRef && v.corpus.contentIds == v.plan.contentIds
  {
  }

  function CoveredIds(summaries: seq<Summary>): set<string> {
    set s | s in summaries :: s.adjudicatorId
  }

  lemma SummaryIds(v: Inputs, i: nat)
    requires Covered(v) && i < |v.adjudicators.adjudicators|
    ensures var c := Decision(v).credentials[i];
            c.adjudicatorId == v.adjudicators.adjudicators[i].id && c in Decision(v).credentials
  {
    assert v.adjudicators.adjudicators[i] in v.adjudicators.adjudicators;
  }

  /** The report of a covered registry passes its own constructor, and covers the registry exactly. */
  lemma DecisionIsConstructed(v: Inputs)
    requires v.adjudicators.Constructed() && Covered(v)
    ensures ReportConstructed(Decision(v))
    ensures forall id :: id in CoveredIds(Decision(v).credentials) <==>
              exists r :: r in v.adjudicators.adjudicators && r.id == id
  {
    var records, cs := v.adjudicators.adjudicators, Decision(v).credentials;
    forall i, j | 0 <= i < j < |cs| ensures cs[i].adjudicatorId != cs[j].adjudicatorId {
      SummaryIds(v, i);
      SummaryIds(v, j);
      assert v.adjudicators.Ids()[i] != v.adjudicators.Ids()[j];
    }
    forall id ensures id in CoveredIds(cs) <==> exists r :: r in records && r.id == id {
      CoveredExactly(v, id);
    }
  }

  lemma CoveredExactly(v: Inputs, id: string)
    requires Covered(v)
    ensures id in CoveredIds(Decision(v).credentials) <==> exists r :: r in v.adjudicators.adjudicators && r.id == id
  {
    var records, cs := v.adjudicators.adjudicators, Decision(v).credentials;
    if id in CoveredIds(cs) {
      var c :| c in cs && c.adjudicatorId == id;
      var i :| 0 <= i < |cs| && cs[i] == c;
      SummaryIds(v, i);
    }
    if r :| r in records && r.id == id {
      var i :| 0 <= i < |records| && records[i] == r;
      SummaryIds(v, i);
    }
  }

  // ----- the supersession links form paths -----

  ghost predicate Supersedes(events: seq<Event>, i: nat, j: nat) {
    i < |events| && j < |events| && events[i].supersedes == Some(events[j].eventId)
  }

  function PositionOf(events: seq<Event>, id: string): (found: Option<nat>)
    ensures found.Some? ==> found.value < |events| && events[found.value].eventId == id
    ensures found.None? ==> forall i :: 0 <= i < |events| ==> events[i].eventId != id
  {
    if events == [] then None
    else if Last(events).eventId == id then Some(|events| - 1)
    else PositionOf(Front(events), id)
  }

  /** The events met by following supersession links back from `i`, oldest first. */
  ghost function Trail(events: seq<Event>, i: nat): seq<nat>
    requires i < |events|
  {
    if events[i].supersedes.None? then [i]
    else
      match PositionOf(events, events[i].supersedes.value)
      case Some(j) => if j < i then Trail(events, j) + [i] else [i]
      case None => [i]
  }

  lemma IdsDiffer(events: seq<Event>, i: nat, j: nat)
    requires DistinctIds(events) && i < |events| && j < |events|
    ensures events[i].eventId == events[j].eventId <==> i == j
  {
  }

  lemma SupersedesIsLatestBefore(v: Inputs, i: nat, j: nat)
    requires ValidHistory(v) && i < |v.events| && j < |v.events|
    ensures Supersedes(v.events, i, j) <==> LatestBefore(v.events, v.events[i].adjudicatorId, i) == Some(j)
  {
    assert Linked(v.events, i) && DistinctIds(v.events);
    SupersedesLatest(v.events, i, j);
  }

  lemma SupersedesLatest(events: seq<Event>, i: nat, j: nat)
    requires i < |events| && j < |events| && DistinctIds(events) && Linked(events, i)
    ensures Supersedes(events, i, j) <==> LatestBefore(events, events[i].adjudicatorId, i) == Some(j)
  {
    var latest := LatestBefore(events, events[i].adjudicatorId, i);
    if latest.Some? {
      IdsDiffer(events, latest.value, j);
    }
  }

  /**
  The links run strictly backwards inside one adjudicator's events, no event is superseded
  twice, and only an adjudicator's first event supersedes nothing.
  */
  lemma LinksAreAcyclicAndUnforked(v: Inputs)
    requires ValidHistory(v)
    ensures forall i: nat, j: nat :: Supersedes(v.events, i, j) ==>
              j < i && v.events[i].adjudicatorId == v.events[j].adjudicatorId
    ensures forall i: nat, j: nat, k: nat :: Supersedes(v.events, i, j) && Supersedes(v.events, k, j) ==> i == k
    ensures forall i: nat :: i < |v.events| ==>
              (v.events[i].supersedes == None <==>
                 forall j :: 0 <= j < i ==> v.events[j].adjudicatorId != v.events[i].adjudicatorId)
  {
    forall i: nat, j: nat | Supersedes(v.events, i, j)
      ensures j < i && v.events[i].adjudicatorId == v.events[j].adjudicatorId
      ensures forall l :: j < l < i ==> v.events[l].adjudicatorId != v.events[j].adjudicatorId
    {
      SupersedesIsLatestBefore(v, i, j);
      LatestBeforeIsLatest(v.events, v.events[i].adjudicatorId, i);
    }
    forall i: nat | i < |v.events|
      ensures v.events[i].supersedes == None <==>
                forall j :: 0 <= j < i ==> v.events[j].adjudicatorId != v.events[i].adjudicatorId
    {
      assert Linked(v.events, i);
      LatestBeforeIsLatest(v.events, v.events[i].adjudicatorId, i);
    }
  }

  lemma {:induction false} PositionsUpToLatest(events: seq<Event>, id: string, n: nat)
    requires n <= |events|
    ensures match LatestBefore(events, id, n)
            case None => Positions(events[..n], id) == []
            case Some(j) => j < n && Positions(events[..n], id) == Positions(events[..j + 1], id)
  {
    if n > 0 {
      PositionsSnoc(events, id, n - 1);
      if events[n - 1].adjudicatorId != id {
        PositionsUpToLatest(events, id, n - 1);
      }
    }
  }

  lemma PositionsSnoc(events: seq<Event>, id: string, i: nat)
    requires i < |events|
    ensures Positions(events[..i + 1], id) ==
            Positions(events[..i], id) + (if events[i].adjudicatorId == id then [i] else [])
  {
    assert Front(events[..i + 1]) == events[..i] && Last(events[..i + 1]) == events[i];
  }

  /** One link back, both by the event's own reference and by position in the ledger. */
  lemma TrailStep(events: seq<Event>, i: nat)
    requires i < |events| && DistinctIds(events) && Linked(events, i)
    ensures match LatestBefore(events, events[i].adjudicatorId, i)
            case None => Trail(events, i) == [i]
            case Some(j) => j < i && events[j].adjudicatorId == events[i].adjudicatorId
                            && Trail(events, i) == Trail(events, j) + [i]
  {
    LatestBeforeIsLatest(events, events[i].adjudicatorId, i);
    var latest := LatestBefore(events, events[i].adjudicatorId, i);
    if latest.Some? {
      var found := PositionOf(events, events[latest.value].eventId);
      IdsDiffer(events, latest.value, found.value);
    }
  }

  lemma PositionsStep(events: seq<Event>, id: string, i: nat, before: seq<nat>)
    requires i < |events| && events[i].adjudicatorId == id
    requires match LatestBefore(events, id, i)
             case None => before == []
             case Some(j) => j < i && before == Positions(events[..j + 1], id)
    ensures Positions(events[..i + 1], id) == before + [i]
  {
    PositionsSnoc(events, id, i);
    PositionsUpToLatest(events, id, i);
    assert Positions(events[..i], id) == before;
  }

  /**
  Following links from an event visits exactly its adjudicator's events up to it, in ledger
  order.
  */
  lemma {:induction false} TrailIsTheChain(v: Inputs, i: nat)
    requires ValidHistory(v) && i < |v.events|
    ensures Trail(v.events, i) == Positions(v.events[..i + 1], v.events[i].adjudicatorId)
    decreases i
  {
    var latest := LatestBefore(v.events, v.events[i].adjudicatorId, i);
    TrailStep(v.events, i);
    if latest.Some? {
      TrailIsTheChain(v, latest.value);
      PositionsStep(v.events, v.events[i].adjudicatorId, i, Trail(v.events, latest.value));
    } else {
      PositionsStep(v.events, v.events[i].adjudicatorId, i, []);
    }
  }

  lemma LastPositionClosesTheChain(events: seq<Event>, id: string, i: nat)
    requires LatestBefore(events, id, |events|) == Some(i)
    ensures i < |events| && events[i].adjudicatorId == id && Positions(events[..i + 1], id) == Positions(events, id)
  {
    LatestBeforeIsLatest(events, id, |events|);
    PositionsUpToLatest(events, id, |events|);
    assert events[..|events|] == events;
  }

  /** From an adjudicator's last event the links reach every event of that adjudicator. */
  lemma TrailCoversTheAdjudicator(v: Inputs, id: string)
    requires ValidHistory(v) && Chain(v.events, id) != []
    ensures match LatestBefore(v.events, id, |v.events|)
            case None => false
            case Some(i) => i < |v.events| && Trail(v.events, i) == Positions(v.events, id)
  {
    LastOfChain(v.events, id);
    var i := LatestBefore(v.events, id, |v.events|).value;
    LastPositionClosesTheChain(v.events, id, i);
    TrailIsTheChain(v, i);
  }

  // ----- prefixes and reorderings -----

  /** Any ledger prefix is itself a history the rules accept, with the same attestations. */
  lemma PrefixIsValid(v: Inputs, n: nat)
    requires ValidHistory(v) && n <= |v.events|
    ensures ValidHistory(v.(events := v.events[..n]))
  {
    var u := v.(events := v.events[..n]);
    forall i | 0 <= i < n ensures EventFailure(u, u.events[i]).None? && Linked(u.events, i) {
      assert EventFailure(u, u.events[i]) == EventFailure(v, v.events[i]);
      assert Linked(v.events, i);
      LinkedLocal(v.events, i, n);
    }
  }

  /**
  A prefix decides as the whole ledger does exactly when every later event takes effect after
  the evaluation time.
  */
  lemma PrefixDecidesAlike(v: Inputs, n: nat)
    requires v.adjudicators.Constructed() && Bindings(v) && ValidHistory(v) && n <= |v.events|
    ensures var u := v.(events := v.events[..n]);
            && (Decision(u) == Decision(v) <==> forall i :: n <= i < |v.events| ==> v.events[i].effectiveAt > v.evaluatedAt)
            && ((forall i :: n <= i < |v.events| ==> v.events[i].effectiveAt > v.evaluatedAt) ==>
                  Decision(u).outcome == Decision(v).outcome)
  {
    var u := v.(events := v.events[..n]);
    if forall i :: n <= i < |v.events| ==> v.events[i].effectiveAt > v.evaluatedAt {
      forall id ensures Effective(Chain(u.events, id), v.evaluatedAt) == Effective(Chain(v.events, id), v.evaluatedAt) {
        ChainOfPrefix(v.events, id, n);
        LaterEventsDoNotApply(Chain(u.events, id), Chain(v.events, id), v.evaluatedAt);
      }
      assert Decision(u).credentials == Decision(v).credentials;
    } else {
      var i :| n <= i < |v.events| && v.events[i].effectiveAt <= v.evaluatedAt;
      LateEventShows(v, n, i);
    }
  }

  /** A later event already in effect makes its adjudicator's applied list longer. */
  lemma LateEventApplies(v: Inputs, n: nat, i: nat)
    requires v.adjudicators.Constructed() && Bindings(v) && ValidHistory(v)
    requires n <= i < |v.events| && v.events[i].effectiveAt <= v.evaluatedAt
    ensures var id := v.events[i].adjudicatorId;
            |Effective(Chain(v.events[..n], id), v.evaluatedAt)| < |Effective(Chain(v.events, id), v.evaluatedAt)|
  {
    var id := v.events[i].adjudicatorId;
    NoEventIsIgnored(v, i);
    PositionsOfChain(v.events, id);
    ChainOfPrefix(v.events, id, n);
    var ps := Positions(v.events, id);
    var k :| 0 <= k < |ps| && ps[k] == i;
    PrefixPositions(v.events, id, n);
    LinearChainIsLinked(v.events, id);
    EffectiveIsLongestPrefix(Chain(v.events, id), v.evaluatedAt);
    assert k < |Effective(Chain(v.events, id), v.evaluatedAt)|;
    EffectiveIsShorter(Chain(v.events[..n], id), v.evaluatedAt);
  }

  lemma LateEventShows(v: Inputs, n: nat, i: nat)
    requires v.adjudicators.Constructed() && Bindings(v) && ValidHistory(v)
    requires n <= i < |v.events| && v.events[i].effectiveAt <= v.evaluatedAt
    ensures Decision(v.(events := v.events[..n])).credentials != Decision(v).credentials
  {
    var id := v.events[i].adjudicatorId;
    NoEventIsIgnored(v, i);
    LateEventApplies(v, n, i);
    var m :| 0 <= m < |v.adjudicators.adjudicators| && v.adjudicators.Ids()[m] == id;
    var cs, ds := Decision(v).credentials, Decision(v.(events := v.events[..n])).credentials;
    assert |cs[m].appliedEventIds| != |ds[m].appliedEventIds|;
  }

  lemma {:induction false} EffectiveIsShorter(chain: seq<Event>, at: int)
    ensures |Effective(chain, at)| <= |chain|
  {
    if chain != [] {
      EffectiveIsShorter(Front(chain), at);
    }
  }

  /** The chain of a prefix ends before the first chain position outside it. */
  lemma PrefixPositions(events: seq<Event>, id: string, n: nat)
    requires n <= |events|
    ensures forall k :: 0 <= k < |Positions(events, id)| && Positions(events, id)[k] >= n ==>
              |Chain(events[..n], id)| <= k
  {
    PositionsOfChain(events, id);
    PositionsOfChain(events[..n], id);
    PositionsPrefix(events, id, n);
  }

  lemma {:induction false} PositionsPrefix(events: seq<Event>, id: string, n: nat)
    requires n <= |events|
    ensures Positions(events[..n], id) <= Positions(events, id)
    decreases |events|
  {
    if n < |events| {
      PositionsPrefix(Front(events), id, n);
      assert Front(events)[..n] == events[..n];
    } else {
      assert events[..n] == events;
    }
  }

  /** Every adjudicator's own events, in their own order, are the same in both ledgers. */
  ghost predicate SameChains(events: seq<Event>, other: seq<Event>) {
    forall id :: Chain(events, id) == Chain(other, id)
  }

  /** Interleaving adjudicators differently changes neither validity nor any summary. */
  lemma ReorderingIsHarmless(v: Inputs, other: seq<Event>)
    requires v.adjudicators.Constructed() && |v.attestations| == |v.adjudicators.adjudicators|
    requires SameChains(v.events, other) && ValidHistory(v)
    ensures var u := v.(events := other);
            ValidHistory(u) && Decision(u) == Decision(v)
  {
    var u := v.(events := other);
    SameChainsSameEvents(v.events, other);
    DistinctIdsIgnoresOrder(v.events, other);
    forall i | 0 <= i < |other| ensures EventFailure(u, other[i]).None? {
      assert other[i] in multiset(other);
      var j :| 0 <= j < |v.events| && v.events[j] == other[i];
      assert EventFailure(v, v.events[j]).None? && EventFailure(u, other[i]) == EventFailure(v, v.events[j]);
    }
    ChainsLinearIffLinked(v);
    ChainsLinearIffLinked(u);
    assert Decision(u).credentials == Decision(v).credentials;
  }

  lemma {:induction false} ChainCounts(events: seq<Event>, e: Event)
    ensures multiset(events)[e] == multiset(Chain(events, e.adjudicatorId))[e]
  {
    if events != [] {
      ChainCounts(Front(events), e);
      assert events == Front(events) + [Last(events)];
    }
  }

  lemma SameChainsSameEvents(events: seq<Event>, other: seq<Event>)
    requires SameChains(events, other)
    ensures multiset(events) == multiset(other)
  {
    forall e ensures multiset(events)[e] == multiset(other)[e] {
      ChainCounts(events, e);
      ChainCounts(other, e);
    }
  }

  /** Whether IDs repeat depends on the population of events, not on their order. */
  lemma DistinctIdsIgnoresOrder(events: seq<Event>, other: seq<Event>)
    requires multiset(events) == multiset(other)
    ensures DistinctIds(events) <==> DistinctIds(other)
  {
    ElementsBound(EventIds(events));
    ElementsBound(EventIds(other));
    IdsOfPopulation(events);
    IdsOfPopulation(other);
    assert |multiset(events)| == |multiset(other)|;
    assert Elements(EventIds(events)) == Elements(EventIds(other));
  }

  lemma IdsOfPopulation(events: seq<Event>)
    ensures forall id :: id in Elements(EventIds(events)) <==> exists e :: e in multiset(events) && e.eventId == id
    ensures Distinct(EventIds(events)) <==> DistinctIds(events)
  {
    forall id ensures id in Elements(EventIds(events)) <==> exists e :: e in multiset(events) && e.eventId == id {
      if id in Elements(EventIds(events)) {
        var i :| 0 <= i < |events| && EventIds(events)[i] == id;
        assert events[i] in multiset(events);
      }
      if e :| e in multiset(events) && e.eventId == id {
        var i :| 0 <= i < |events| && events[i] == e;
        assert EventIds(events)[i] == id;
      }
    }
    assert forall i :: 0 <= i < |events| ==> EventIds(events)[i] == events[i].eventId;
  }
}
