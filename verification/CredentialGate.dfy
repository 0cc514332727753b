/**
Credentials of the adjudicators: structural evidence first, validity in time second.

Whether the evidence is accepted never depends on the evaluation time.  When it is, the times at
which the decision executes form one half-open window.
*/
module CredentialGate {
  import opened Artifacts
  import opened Sequences
  import opened Governance

  datatype CredentialEntry = CredentialEntry(adjudicatorId: string, revision: string, attestationRef: Ref)

  datatype CredentialCorpus = CredentialCorpus(
    reference: VersionedRef, contentIds: seq<string>, adjudicatorRegistryRef: VersionedRef, adjudicationRef: Ref,
    issuerRegistryRef: VersionedRef, policyRef: VersionedRef, entries: seq<CredentialEntry>)

  datatype Inputs = Inputs(
    plan: Plan, corpus: CredentialCorpus, adjudicators: AdjudicatorRegistry, issuers: IssuerRegistry,
    policy: CredentialPolicy, attestations: seq<Attestation>, adjudication: Adjudication, evaluatedAt: int)

  datatype Failure =
    | EntryDiffers(id: string) | ReferenceDiffers(id: string) | IdentityDiffers(id: string) | RoleDiffers(id: string)
    | TypeDiffers(id: string) | IssuerAbsent(id: string) | IssuerRevisionDiffers(id: string)
    | TypeNotIssuable(id: string) | AdjudicationAbsent | AdjudicationRevisionDiffers | AdjudicationRoleNotAttested

  datatype Summary = Summary(
    adjudicatorId: string, revision: string, issuerId: string, issuerRevision: string, roles: seq<Role>,
    status: CredentialStatus, validFrom: int, validUntil: int, reasons: seq<string>)

  datatype Report = Report(
    experimentId: string, experimentVersion: string, corpusRef: VersionedRef, adjudicatorRegistryRef: VersionedRef,
    issuerRegistryRef: VersionedRef, policyRef: VersionedRef, adjudicationRef: Ref, outcome: Outcome,
    credentials: seq<Summary>, evaluatedAt: int)

  datatype Verdict = Reported(report: Report) | BindingsDiffer | EvidenceFailed(failures: seq<Failure>)

  predicate Bindings(v: Inputs) {
    && v.plan.status == Frozen
    && v.plan.corpusRef == v.corpus.reference && v.plan.contentIds == v.corpus.contentIds
    && v.corpus.adjudicatorRegistryRef == v.adjudicators.reference
    && v.corpus.issuerRegistryRef == v.issuers.reference
    && v.corpus.policyRef == v.policy.reference
    && v.corpus.adjudicationRef == v.adjudication.reference
    && v.adjudicators.status == Accepted && v.issuers.status == Accepted && v.policy.status == Accepted
    && v.policy.issuerRegistryRef == v.issuers.reference
    && v.policy.adjudicatorRegistryRef == v.adjudicators.reference
    && |v.corpus.entries| == |v.adjudicators.adjudicators|
    && |v.attestations| == |v.corpus.entries|
  }

  predicate Aligned(v: Inputs) {
    |v.corpus.entries| == |v.adjudicators.adjudicators| && |v.attestations| == |v.corpus.entries|
  }

  /** Why the k-th credential is refused, in the order the validator asks. */
  function Refusal(v: Inputs, k: nat): Option<Failure>
    requires Aligned(v) && k < |v.attestations|
  {
    var r, e, a := v.adjudicators.adjudicators[k], v.corpus.entries[k], v.attestations[k];
    var issuer := v.issuers.Lookup(a.issuerId);
    if (e.adjudicatorId, e.revision) != (r.id, r.revision) then Some(EntryDiffers(r.id))
    else if a.reference != e.attestationRef then Some(ReferenceDiffers(r.id))
    else if (a.adjudicatorId, a.revision) != (r.id, r.revision) then Some(IdentityDiffers(r.id))
    else if v.policy.requireExactRoleMatch && a.roles != [r.role] then Some(RoleDiffers(r.id))
    else if a.credentialType != v.policy.credentialType then Some(TypeDiffers(r.id))
    else if issuer.None? then Some(IssuerAbsent(r.id))
    else if issuer.value.revision != a.issuerRevision then Some(IssuerRevisionDiffers(r.id))
    else if a.credentialType !in issuer.value.credentialTypes then Some(TypeNotIssuable(r.id))
    else None
  }

  // ----- what acceptable evidence is, in no particular order and at no particular time -----

  predicate Sound(v: Inputs, k: nat)
    requires Aligned(v) && k < |v.attestations|
  {
    var r, e, a := v.adjudicators.adjudicators[k], v.corpus.entries[k], v.attestations[k];
    var issuer := v.issuers.Lookup(a.issuerId);
    && e == CredentialEntry(r.id, r.revision, a.reference)
    && a.adjudicatorId == r.id && a.revision == r.revision
    && (v.policy.requireExactRoleMatch ==> a.roles == [r.role])
    && a.credentialType == v.policy.credentialType
    && issuer.Some? && issuer.value.revision == a.issuerRevision
    && a.credentialType in issuer.value.credentialTypes
  }

  ghost predicate AllSound(v: Inputs)
    requires Aligned(v)
  {
    forall k :: 0 <= k < |v.attestations| ==> Sound(v, k)
  }

  /** The recorded adjudicator, if any, is a registered one acting under an attested identity and role. */
  ghost predicate AdjudicatorAttested(v: Inputs)
    requires Aligned(v)
  {
    v.adjudication.adjudicatorId.Some? ==>
      exists k :: 0 <= k < |v.attestations|
                  && v.adjudicators.adjudicators[k].id == v.adjudication.adjudicatorId.value
                  && v.adjudication.adjudicatorRevision == Some(v.attestations[k].revision)
                  && WitnessConflictAdjudicator in v.attestations[k].roles
  }

  ghost predicate ValidEvidence(v: Inputs) {
    Bindings(v) && AllSound(v) && AdjudicatorAttested(v)
  }

  lemma RefusalIsUnsoundness(v: Inputs, k: nat)
    requires Aligned(v) && k < |v.attestations|
    ensures Refusal(v, k).None? <==> Sound(v, k)
  {
  }

  /** What each refusal says of one credential, naming its registered adjudicator. */
  ghost predicate Complaint(v: Inputs, k: nat, f: Failure)
    requires Aligned(v) && k < |v.attestations|
  {
    var r, e, a := v.adjudicators.adjudicators[k], v.corpus.entries[k], v.attestations[k];
    match f
    case EntryDiffers(id) => id == r.id && (e.adjudicatorId != r.id || e.revision != r.revision)
    case ReferenceDiffers(id) => id == r.id && a.reference != e.attestationRef
    case IdentityDiffers(id) => id == r.id && (a.adjudicatorId != r.id || a.revision != r.revision)
    case RoleDiffers(id) => id == r.id && v.policy.requireExactRoleMatch && a.roles != [r.role]
    case TypeDiffers(id) => id == r.id && a.credentialType != v.policy.credentialType
    case IssuerAbsent(id) => id == r.id && forall i :: i in v.issuers.issuers ==> i.id != a.issuerId
    case IssuerRevisionDiffers(id) =>
      id == r.id && exists i :: i in v.issuers.issuers && i.id == a.issuerId && i.revision != a.issuerRevision
    case TypeNotIssuable(id) =>
      id == r.id && exists i :: i in v.issuers.issuers && i.id == a.issuerId && a.credentialType !in i.credentialTypes
    case _ => false
  }

  /** A credential is refused for a reason that is true of it. */
  lemma RefusalIsTrue(v: Inputs, k: nat)
    requires Aligned(v) && k < |v.attestations| && Refusal(v, k).Some?
    ensures Complaint(v, k, Refusal(v, k).value)
  {
    var issuers := v.issuers.issuers;
    if v.issuers.Lookup(v.attestations[k].issuerId).None? {
      forall i | i in issuers ensures i.id != v.attestations[k].issuerId {
        var j :| 0 <= j < |issuers| && issuers[j] == i;
      }
    }
  }

  /** What each reported failure says of the inputs. */
  ghost predicate Holds(v: Inputs, f: Failure)
    requires Aligned(v)
  {
    match f
    case AdjudicationAbsent =>
      && v.adjudication.adjudicatorId.Some?
      && forall k :: 0 <= k < |v.attestations| && Sound(v, k) ==> v.attestations[k].adjudicatorId != v.adjudication.adjudicatorId.value
    case AdjudicationRevisionDiffers =>
      exists k :: 0 <= k < |v.attestations| && v.adjudication.adjudicatorId == Some(v.attestations[k].adjudicatorId)
                  && v.adjudication.adjudicatorRevision != Some(v.attestations[k].revision)
    case AdjudicationRoleNotAttested =>
      !v.policy.requireExactRoleMatch
      && exists k :: 0 <= k < |v.attestations| && v.adjudication.adjudicatorId == Some(v.attestations[k].adjudicatorId)
                     && WitnessConflictAdjudicator !in v.attestations[k].roles
    case _ => RefusedFor(v, f)
  }

  ghost predicate RefusedFor(v: Inputs, f: Failure)
    requires Aligned(v)
  {
    exists k :: 0 <= k < |v.attestations| && Refusal(v, k) == Some(f)
  }

  // ----- the decision at a time -----

  function IssuerActive(v: Inputs, a: Attestation): bool {
    v.issuers.Lookup(a.issuerId).Some? && v.issuers.Lookup(a.issuerId).value.active
  }

  function Reasons(active: bool, a: Attestation, at: int): seq<string> {
    (if active then [] else ["credential-issuer-inactive"])
    + (match a.status
       case Active => []
       case Suspended => ["credential-status:suspended"]
       case Revoked => ["credential-status:revoked"])
    + (if at < a.validFrom then ["credential-not-yet-valid"] else [])
    + (if at >= a.validUntil then ["credential-expired"] else [])
  }

  function SummaryOf(v: Inputs, k: nat): Summary
    requires Aligned(v) && k < |v.attestations|
  {
    var r, a := v.adjudicators.adjudicators[k], v.attestations[k];
    Summary(r.id, r.revision, a.issuerId, a.issuerRevision, a.roles, a.status, a.validFrom, a.validUntil,
            Reasons(IssuerActive(v, a), a, v.evaluatedAt))
  }

  function SummariesOf(v: Inputs): (s: seq<Summary>)
    requires Aligned(v)
    ensures |s| == |v.attestations|
  {
    seq(|v.attestations|, k requires 0 <= k < |v.attestations| && Aligned(v) => SummaryOf(v, k))
  }

  function OutcomeOf(summaries: seq<Summary>): Outcome {
    if exists s :: s in summaries && s.reasons != [] then Abstain else Execute
  }

  function Decision(v: Inputs): Report
    requires Aligned(v)
  {
    Report(
      v.plan.experimentId, v.plan.experimentVersion, v.plan.corpusRef, v.corpus.adjudicatorRegistryRef,
      v.corpus.issuerRegistryRef, v.corpus.policyRef, v.corpus.adjudicationRef, OutcomeOf(SummariesOf(v)),
      SummariesOf(v), v.evaluatedAt)
  }

  ghost predicate ReportConstructed(r: Report) {
    && r.credentials != []
    && (forall i, j :: 0 <= i < j < |r.credentials| ==> r.credentials[i].adjudicatorId != r.credentials[j].adjudicatorId)
    && r.outcome == OutcomeOf(r.credentials)
  }

  // ----- the validator -----

  ghost predicate Collected(v: Inputs, byId: map<string, Attestation>, n: nat)
    requires Aligned(v) && n <= |v.attestations|
  {
    && (forall k :: 0 <= k < n ==> v.adjudicators.adjudicators[k].id in byId
                                   && byId[v.adjudicators.adjudicators[k].id] == v.attestations[k])
    && (forall id :: id in byId ==> exists k :: 0 <= k < n && v.adjudicators.adjudicators[k].id == id)
  }

  lemma CollectNext(v: Inputs, byId: map<string, Attestation>, n: nat)
    requires v.adjudicators.Constructed() && Aligned(v) && n < |v.attestations| && Collected(v, byId, n)
    ensures Collected(v, byId[v.adjudicators.adjudicators[n].id := v.attestations[n]], n + 1)
  {
    forall k | 0 <= k < n ensures v.adjudicators.adjudicators[k].id != v.adjudicators.adjudicators[n].id {
      assert v.adjudicators.Ids()[k] != v.adjudicators.Ids()[n];
    }
  }

  /** What is collected under an ID is a sound credential of that adjudicator. */
  ghost predicate Genuine(v: Inputs, byId: map<string, Attestation>)
    requires Aligned(v)
  {
    forall id :: id in byId ==>
      exists k :: 0 <= k < |v.attestations| && Sound(v, k) && byId[id] == v.attestations[k] && v.attestations[k].adjudicatorId == id
  }

  /** Every sound credential up to `n` has been collected. */
  ghost predicate Complete(v: Inputs, byId: map<string, Attestation>, n: nat)
    requires Aligned(v) && n <= |v.attestations|
  {
    forall k :: 0 <= k < n && Sound(v, k) ==> v.attestations[k].adjudicatorId in byId
  }

  /** The role enumeration has one value, so an exactly matching credential attests it. */
  lemma ExactRoleIsAttested(v: Inputs, byId: map<string, Attestation>, id: string)
    requires Aligned(v) && Genuine(v, byId) && id in byId && v.policy.requireExactRoleMatch
    ensures WitnessConflictAdjudicator in byId[id].roles
  {
    var k :| 0 <= k < |v.attestations| && Sound(v, k) && byId[id] == v.attestations[k];
    assert v.adjudicators.adjudicators[k].role == WitnessConflictAdjudicator;
  }

  ghost predicate SoundUpTo(v: Inputs, n: nat)
    requires Aligned(v) && n <= |v.attestations|
  {
    forall k :: 0 <= k < n ==> Sound(v, k)
  }

  /** The state of the loop over the credentials after `n` of them. */
  ghost predicate CheckedUpTo(
    v: Inputs, n: nat, failures: seq<Failure>, summaries: seq<Summary>, byId: map<string, Attestation>)
    requires Aligned(v) && n <= |v.attestations|
  {
    && (failures == [] <==> SoundUpTo(v, n))
    && (failures == [] ==> summaries == SummariesOf(v)[..n] && Collected(v, byId, n))
    && Genuine(v, byId) && Complete(v, byId, n)
    && (forall f :: f in failures ==> Holds(v, f))
  }

  lemma RefusedNext(
    v: Inputs, n: nat, failures: seq<Failure>, summaries: seq<Summary>, byId: map<string, Attestation>, f: Failure)
    requires Aligned(v) && n < |v.attestations| && CheckedUpTo(v, n, failures, summaries, byId)
    requires Refusal(v, n) == Some(f)
    ensures CheckedUpTo(v, n + 1, failures + [f], summaries, byId)
  {
    RefusalIsUnsoundness(v, n);
    assert RefusedFor(v, f);
  }

  lemma GenuineNext(v: Inputs, byId: map<string, Attestation>, n: nat)
    requires Aligned(v) && n < |v.attestations| && Sound(v, n) && Genuine(v, byId) && Complete(v, byId, n)
    ensures var next := byId[v.adjudicators.adjudicators[n].id := v.attestations[n]];
            Genuine(v, next) && Complete(v, next, n + 1)
  {
    var next := byId[v.adjudicators.adjudicators[n].id := v.attestations[n]];
    forall id | id in next
      ensures exists k :: 0 <= k < |v.attestations| && Sound(v, k) && next[id] == v.attestations[k] && v.attestations[k].adjudicatorId == id
    {
      assert id == v.adjudicators.adjudicators[n].id || id in byId;
    }
  }

  lemma SoundNext(v: Inputs, n: nat, failures: seq<Failure>, summaries: seq<Summary>, byId: map<string, Attestation>)
    requires v.adjudicators.Constructed() && Aligned(v) && n < |v.attestations|
    requires CheckedUpTo(v, n, failures, summaries, byId) && Refusal(v, n).None?
    ensures CheckedUpTo(v, n + 1, failures, summaries + [SummaryOf(v, n)],
                        byId[v.adjudicators.adjudicators[n].id := v.attestations[n]])
  {
    RefusalIsUnsoundness(v, n);
    GenuineNext(v, byId, n);
    if failures == [] {
      CollectNext(v, byId, n);
      assert SummariesOf(v)[..n + 1] == SummariesOf(v)[..n] + [SummaryOf(v, n)];
    }
  }

  /** Goes through registry, entries and attestations side by side, skipping what it refuses. */
  method CheckCredentials(v: Inputs)
    returns (failures: seq<Failure>, summaries: seq<Summary>, byId: map<string, Attestation>)
    requires v.adjudicators.Constructed() && Aligned(v)
    ensures failures == [] <==> AllSound(v)
    ensures failures == [] ==> summaries == SummariesOf(v) && Collected(v, byId, |v.attestations|)
    ensures Genuine(v, byId) && Complete(v, byId, |v.attestations|) && forall f :: f in failures ==> Holds(v, f)
  {
    failures, summaries, byId := [], [], map[];
    for k := 0 to |v.attestations|
      invariant CheckedUpTo(v, k, failures, summaries, byId)
    {
      var refusal := Refusal(v, k);
      if refusal.Some? {
        RefusedNext(v, k, failures, summaries, byId, refusal.value);
        failures := failures + [refusal.value];
        continue;
      }
      SoundNext(v, k, failures, summaries, byId);
      var r, a := v.adjudicators.adjudicators[k], v.attestations[k];
      summaries := summaries + [SummaryOf(v, k)];
      byId := byId[r.id := a];
    }
    assert SummariesOf(v)[..|v.attestations|] == SummariesOf(v);
  }

  /** The adjudication's own credential, looked up among those collected. */
  method CheckAdjudication(v: Inputs, byId: map<string, Attestation>) returns (failure: Option<Failure>)
    requires v.adjudicators.Constructed() && Aligned(v)
    ensures Collected(v, byId, |v.attestations|) ==> (failure.None? <==> AdjudicatorAttested(v))
    ensures Genuine(v, byId) && Complete(v, byId, |v.attestations|) && failure.Some? ==> Holds(v, failure.value)
  {
    if v.adjudication.adjudicatorId.None? {
      return None;
    }
    var id := v.adjudication.adjudicatorId.value;
    if Collected(v, byId, |v.attestations|) {
      CollectedDecides(v, byId, id);
    }
    if id !in byId {
      return Some(AdjudicationAbsent);
    }
    if Genuine(v, byId) && v.policy.requireExactRoleMatch {
      ExactRoleIsAttested(v, byId, id);
    }
    if v.adjudication.adjudicatorRevision != Some(byId[id].revision) {
      return Some(AdjudicationRevisionDiffers);
    }
    if WitnessConflictAdjudicator !in byId[id].roles {
      return Some(AdjudicationRoleNotAttested);
    }
    failure := None;
  }

  lemma CollectedDecides(v: Inputs, byId: map<string, Attestation>, id: string)
    requires v.adjudicators.Constructed() && Aligned(v) && Collected(v, byId, |v.attestations|)
    ensures forall k :: 0 <= k < |v.attestations| && v.adjudicators.adjudicators[k].id == id ==>
              id in byId && byId[id] == v.attestations[k]
    ensures id in byId ==> exists k :: 0 <= k < |v.attestations| && v.adjudicators.adjudicators[k].id == id
  {
  }

  /**
  Accepts exactly the valid evidence, whatever the evaluation time, with the report that time
  gives, and reports only failures that are true.  Under the policy constructor's exact-role rule
  the role check on the adjudication never supplies one.
  */
  method Validate(v: Inputs) returns (verdict: Verdict)
    requires v.adjudicators.Constructed()
    ensures verdict.Reported? <==> ValidEvidence(v)
    ensures verdict.Reported? ==> verdict.report == Decision(v) && ReportConstructed(verdict.report)
    ensures verdict.BindingsDiffer? <==> !Bindings(v)
    ensures verdict.EvidenceFailed? ==> verdict.failures != []
    ensures verdict.EvidenceFailed? ==> Aligned(v) && forall f :: f in verdict.failures ==> Holds(v, f)
  {
    if !Bindings(v) {
      return BindingsDiffer;
    }
    var failures, summaries, byId := CheckCredentials(v);
    var failure := CheckAdjudication(v, byId);
    if failure.Some? {
      failures := failures + [failure.value];
    }
    if failures != [] {
      return EvidenceFailed(failures);
    }
    DecisionIsConstructed(v);
    return Reported(Report(
      v.plan.experimentId, v.plan.experimentVersion, v.corpus.reference, v.adjudicators.reference,
      v.issuers.reference, v.policy.reference, v.adjudication.reference, OutcomeOf(summaries), summaries, v.evaluatedAt));
  }

  lemma DecisionIsConstructed(v: Inputs)
    requires v.adjudicators.Constructed() && Aligned(v)
    ensures ReportConstructed(Decision(v))
  {
    var s := SummariesOf(v);
    assert |s| == |v.adjudicators.adjudicators|;
    forall i, j | 0 <= i < j < |s| ensures s[i].adjudicatorId != s[j].adjudicatorId {
      assert v.adjudicators.Ids()[i] != v.adjudicators.Ids()[j];
    }
  }

  // ----- time -----

  function At(v: Inputs, t: int): Inputs {
    v.(evaluatedAt := t)
  }

  function LatestStart(attestations: seq<Attestation>): int
    requires attestations != []
  {
    if |attestations| == 1 then attestations[0].validFrom
    else
      var rest := LatestStart(attestations[1..]);
      if attestations[0].validFrom > rest then attestations[0].validFrom else rest
  }

  function EarliestEnd(attestations: seq<Attestation>): int
    requires attestations != []
  {
    if |attestations| == 1 then attestations[0].validUntil
    else
      var rest := EarliestEnd(attestations[1..]);
      if attestations[0].validUntil < rest then attestations[0].validUntil else rest
  }

  lemma {:induction false} WindowBounds(attestations: seq<Attestation>, t: int)
    requires attestations != []
    ensures LatestStart(attestations) <= t < EarliestEnd(attestations) <==>
            forall k :: 0 <= k < |attestations| ==> attestations[k].validFrom <= t < attestations[k].validUntil
  {
    if |attestations| > 1 {
      var rest := attestations[1..];
      WindowBounds(rest, t);
      assert forall k :: 0 <= k < |rest| ==> rest[k] == attestations[k + 1];
      assert (forall k :: 0 <= k < |rest| ==> rest[k].validFrom <= t < rest[k].validUntil) <==>
             (forall k :: 1 <= k < |attestations| ==> attestations[k].validFrom <= t < attestations[k].validUntil) by {
        assert forall k :: 1 <= k < |attestations| ==> attestations[k] == rest[k - 1];
      }
    }
  }

  /** No issuer is inactive and no credential suspended or revoked. */
  predicate Standing(v: Inputs) {
    forall a :: a in v.attestations ==> IssuerActive(v, a) && a.status == Active
  }

  lemma OutcomeByParts(v: Inputs)
    requires Aligned(v)
    ensures Decision(v).outcome == Execute <==>
            forall k :: 0 <= k < |v.attestations| ==>
              && IssuerActive(v, v.attestations[k]) && v.attestations[k].status == Active
              && v.attestations[k].validFrom <= v.evaluatedAt < v.attestations[k].validUntil
  {
    var s := SummariesOf(v);
    forall k | 0 <= k < |s|
      ensures s[k] in s
      ensures s[k].reasons == [] <==>
              && IssuerActive(v, v.attestations[k]) && v.attestations[k].status == Active
              && v.attestations[k].validFrom <= v.evaluatedAt < v.attestations[k].validUntil
    {
    }
  }

  /**
  Each summary repeats its adjudicator's own credential, and gives each reason to abstain exactly
  when it holds: an inactive issuer, a suspended or revoked credential, a time before or past the window.
  */
  lemma SummaryReadsTheCredential(v: Inputs, k: nat)
    requires v.issuers.Constructed() && ValidEvidence(v) && k < |v.attestations|
    ensures var s, a := Decision(v).credentials[k], v.attestations[k];
            && s.adjudicatorId == a.adjudicatorId && s.revision == a.revision
            && s.issuerId == a.issuerId && s.issuerRevision == a.issuerRevision
            && s.roles == a.roles && s.status == a.status
            && s.validFrom == a.validFrom && s.validUntil == a.validUntil
            && ("credential-issuer-inactive" in s.reasons <==>
                  exists i :: i in v.issuers.issuers && i.id == a.issuerId && !i.active)
            && ("credential-status:suspended" in s.reasons <==> a.status == Suspended)
            && ("credential-status:revoked" in s.reasons <==> a.status == Revoked)
            && ("credential-not-yet-valid" in s.reasons <==> v.evaluatedAt < a.validFrom)
            && ("credential-expired" in s.reasons <==> v.evaluatedAt >= a.validUntil)
  {
    assert Sound(v, k);
    IssuersAreUnique(v.issuers, v.attestations[k].issuerId);
    ReasonsAreTheFaults(IssuerActive(v, v.attestations[k]), v.attestations[k], v.evaluatedAt);
  }

  lemma IssuersAreUnique(issuers: IssuerRegistry, id: string)
    requires issuers.Constructed() && issuers.Lookup(id).Some?
    ensures forall i :: i in issuers.issuers && i.id == id ==> i == issuers.Lookup(id).value
  {
    var found := issuers.Lookup(id).value;
    var k :| 0 <= k < |issuers.issuers| && issuers.issuers[k] == found;
    forall i | i in issuers.issuers && i.id == id ensures i == found {
      var j :| 0 <= j < |issuers.issuers| && issuers.issuers[j] == i;
    }
  }

  /** The report names the experiment and the records that were validated, all in force and naming each other. */
  lemma ReportNamesItsRecords(v: Inputs)
    requires ValidEvidence(v)
    ensures var r := Decision(v);
            && r.experimentId == v.plan.experimentId && r.experimentVersion == v.plan.experimentVersion
            && r.corpusRef == v.corpus.reference && r.adjudicatorRegistryRef == v.adjudicators.reference
            && r.issuerRegistryRef == v.issuers.reference && r.policyRef == v.policy.reference
            && r.adjudicationRef == v.adjudication.reference && r.evaluatedAt == v.evaluatedAt
            && |r.credentials| == |v.attestations| == |v.corpus.entries| == |v.adjudicators.adjudicators|
    ensures v.plan.status == Frozen && v.adjudicators.status == Accepted
    ensures v.issuers.status == Accepted && v.policy.status == Accepted
    ensures v.policy.issuerRegistryRef == v.corpus.issuerRegistryRef
    ensures v.policy.adjudicatorRegistryRef == v.corpus.adjudicatorRegistryRef
    ensures v.plan.contentIds == v.corpus.contentIds
  {
  }

  lemma ReasonsAreTheFaults(active: bool, a: Attestation, at: int)
    ensures var reasons := Reasons(active, a, at);
            && ("credential-issuer-inactive" in reasons <==> !active)
            && ("credential-status:suspended" in reasons <==> a.status == Suspended)
            && ("credential-status:revoked" in reasons <==> a.status == Revoked)
            && ("credential-not-yet-valid" in reasons <==> at < a.validFrom)
            && ("credential-expired" in reasons <==> at >= a.validUntil)
  {
    var issuer, suspended, revoked := "credential-issuer-inactive", "credential-status:suspended", "credential-status:revoked";
    var early, late := "credential-not-yet-valid", "credential-expired";
    assert |issuer| == 26 && |suspended| == 27 && |revoked| == 25 && |early| == 24 && |late| == 18;
  }

  /**
  Evidence is valid at every time or at none, and the times at which it executes are exactly the
  window from the latest start to the earliest end, empty unless every credential stands.
  */
  lemma ExecutionIsOneWindow(v: Inputs, t: int)
    requires v.adjudicators.Constructed() && ValidEvidence(v)
    ensures v.attestations != [] && ValidEvidence(At(v, t))
    ensures Decision(At(v, t)).outcome == Execute <==>
            Standing(v) && LatestStart(v.attestations) <= t < EarliestEnd(v.attestations)
  {
    forall k | 0 <= k < |v.attestations| ensures Sound(At(v, t), k) {
      assert Sound(v, k);
    }
    OutcomeByParts(At(v, t));
    WindowBounds(v.attestations, t);
    if Standing(v) {
      forall k | 0 <= k < |v.attestations|
        ensures IssuerActive(v, v.attestations[k]) && v.attestations[k].status == Active
      {
        assert v.attestations[k] in v.attestations;
      }
    }
  }
}
