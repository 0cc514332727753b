/**
What the finals in a store say, over whole histories of runner calls.

A final's ID tells how the run ended.  Here that is tied to the manifest stored under the ID: a
completion always records an executed terminal outcome, a terminal abstention an abstained one, and
an abstention of a gate that nothing was delegated.
*/
module RunFinals {
  import opened Artifacts
  import opened ArtifactStore
  import opened Governance
  import opened RunArtifactIds
  import I = Interleaving
  import W = WitnessRunner
  import A = AdjudicatedRunner
  import opened RunHistory

  const FINALS: set<Kind> := {
    WitnessAbstention, WitnessCompletion, WitnessTerminalAbstention,
    AdjudicationAbstention, AdjudicationCompletion, AdjudicationTerminalAbstention}

  /** A witness run's manifest with these outcomes; it names a delegated final exactly if the gate executed. */
  ghost predicate WitnessSays(ser: A.Serializer, run: string, payload: Bytes, gate: Outcome, terminal: Outcome) {
    exists f: W.FinalManifest ::
      && ser.inner.final(f) == payload && f.run == run && f.witnessOutcome == gate && f.terminalOutcome == terminal
      && (f.checkpointFinalRef.Some? <==> gate == Execute)
  }

  ghost predicate AdjudicationSays(ser: A.Serializer, run: string, payload: Bytes, gate: Outcome, terminal: Outcome) {
    exists f: A.FinalManifest ::
      && ser.final(f) == payload && f.run == run && f.adjudicationOutcome == gate && f.terminalOutcome == terminal
      && (f.checkpointFinalRef.Some? <==> gate == Execute)
  }

  /** What is stored under a final's ID. */
  ghost predicate Says(ser: A.Serializer, run: string, kind: Kind, payload: Bytes)
    requires kind in FINALS
  {
    match kind
    case WitnessAbstention => WitnessSays(ser, run, payload, Abstain, Abstain)
    case WitnessCompletion => WitnessSays(ser, run, payload, Execute, Execute)
    case WitnessTerminalAbstention => WitnessSays(ser, run, payload, Execute, Abstain)
    case AdjudicationAbstention => AdjudicationSays(ser, run, payload, Abstain, Abstain)
    case AdjudicationCompletion => AdjudicationSays(ser, run, payload, Execute, Execute)
    case AdjudicationTerminalAbstention => AdjudicationSays(ser, run, payload, Execute, Abstain)
  }

  ghost predicate FinalsSay(ser: A.Serializer, script: seq<Artifact>) {
    forall k: nat, run: string, kind: Kind ::
      k < |script| && kind in FINALS && script[k].id == Id(run, kind) ==> Says(ser, run, kind, script[k].payload)
  }

  lemma FinalsSayTogether(ser: A.Serializer, first: seq<Artifact>, second: seq<Artifact>)
    requires FinalsSay(ser, first) && FinalsSay(ser, second)
    ensures FinalsSay(ser, first + second)
  {
    var script := first + second;
    forall k: nat, run: string, kind: Kind | k < |script| && kind in FINALS && script[k].id == Id(run, kind)
      ensures Says(ser, run, kind, script[k].payload)
    {
      if k < |first| {
        assert script[k] == first[k];
      } else {
        assert script[k] == second[k - |first|];
      }
    }
  }

  lemma NoFinalsSay(ser: A.Serializer, script: seq<Artifact>)
    requires NoFinals(script, FINALS)
    ensures FinalsSay(ser, script)
  {
  }

  lemma SingleSays(ser: A.Serializer, a: Artifact, owner: string, k: Kind)
    requires k in FINALS && a.id == Id(owner, k) && Says(ser, owner, k, a.payload)
    ensures FinalsSay(ser, [a])
  {
    forall n: nat, run: string, kind: Kind | n < 1 && kind in FINALS && [a][n].id == Id(run, kind)
      ensures Says(ser, run, kind, [a][n].payload)
    {
      IdsAreInjective(owner, k, run, kind);
    }
  }

  lemma WitnessFinalSays(ser: A.Serializer, i: W.RunInputs, b: W.Behaviour)
    requires W.Finishes(i, b)
    ensures FinalsSay(ser, [W.FinalArtifact(ser.inner, i, b)])
  {
    var f := W.Final(ser.inner, i, W.Delegated(i, b));
    SingleSays(ser, W.FinalArtifact(ser.inner, i, b), i.run, W.FinalKind(f.witnessOutcome, f.terminalOutcome));
  }

  lemma WitnessScriptSays(ser: A.Serializer, i: W.RunInputs, b: W.Behaviour)
    requires W.Honest(ser.inner.h, b)
    ensures FinalsSay(ser, W.Script(ser.inner, i, b))
  {
    var head, middle := W.Head(ser.inner, i), W.DelegatedScript(i, b);
    HeadHasNoFinals(ser.inner, i, FINALS);
    ForeignHasNoFinals(middle, FINALS);
    NoFinalsTogether(head, middle, FINALS);
    NoFinalsSay(ser, head + middle);
    if W.Finishes(i, b) {
      WitnessFinalSays(ser, i, b);
      FinalsSayTogether(ser, head + middle, [W.FinalArtifact(ser.inner, i, b)]);
    } else {
      assert head + middle + [] == head + middle;
    }
  }

  lemma AdjudicatedFinalSays(ser: A.Serializer, i: A.RunInputs, b: W.Behaviour, own: W.Behaviour)
    requires A.Finishes(i, b, own)
    ensures FinalsSay(ser, [A.FinalArtifact(ser, i, b, own)])
  {
    var f := A.Final(ser, i, b, A.Delegated(i, b, own));
    SingleSays(
      ser, A.FinalArtifact(ser, i, b, own), i.inner.run, A.FinalKind(f.adjudicationOutcome, f.terminalOutcome));
  }

  lemma AdjudicatedScriptSays(ser: A.Serializer, i: A.RunInputs, b: W.Behaviour, own: W.Behaviour)
    requires W.Honest(ser.inner.h, b) && W.Honest(ser.inner.h, own)
    ensures FinalsSay(ser, A.Script(ser, i, b, own))
  {
    var inner, decision, middle := W.Script(ser.inner, i.inner, b), [A.DecisionArtifact(ser, i)], A.OwnScript(i, b, own);
    WitnessScriptSays(ser, i.inner, b);
    SingleHasNoFinals(A.DecisionArtifact(ser, i), i.inner.run, AdjudicationDecision, FINALS);
    NoFinalsSay(ser, decision);
    FinalsSayTogether(ser, inner, decision);
    ForeignHasNoFinals(middle, FINALS);
    NoFinalsSay(ser, middle);
    FinalsSayTogether(ser, inner + decision, middle);
    if A.Finishes(i, b, own) {
      AdjudicatedFinalSays(ser, i, b, own);
      FinalsSayTogether(ser, inner + decision + middle, [A.FinalArtifact(ser, i, b, own)]);
    } else {
      assert inner + decision + middle + [] == inner + decision + middle;
    }
  }

  lemma CallSays(ser: A.Serializer, c: Call)
    requires LegalCall(ser.inner.h, c)
    ensures FinalsSay(ser, ScriptOf(ser, c))
  {
    match c {
      case WitnessCall(i, inner) => WitnessScriptSays(ser, i, inner);
      case AdjudicatedCall(i, inner, own) => AdjudicatedScriptSays(ser, i, inner, own);
      case OtherCall(script) =>
        ForeignHasNoFinals(script, FINALS);
        NoFinalsSay(ser, script);
    }
  }

  /**
  In every history, what a run's final records is what its name says: a completion an executed
  terminal outcome, a terminal abstention an abstained one, and only these name a delegated final.
  */
  lemma FinalsRecordTheirOutcome(
    ser: A.Serializer, calls: seq<Call>, schedule: seq<nat>, trace: seq<I.State>, n: nat, run: string, kind: Kind)
    requires History(ser, calls, schedule, trace) && n < |trace| && kind in FINALS
    requires Id(run, kind) in trace[n].view && Id(run, kind) !in trace[0].view
    ensures Says(ser, run, kind, trace[n].view[Id(run, kind)].payload)
  {
    var i, k := I.NewIdWasAppended(Scripts(ser, calls), schedule, trace, n, Id(run, kind));
    CallSays(ser, calls[i]);
  }

  /** Canonical serialization loses no final. */
  ghost predicate FaithfulFinals(ser: A.Serializer) {
    && (forall f, g :: ser.inner.final(f) == ser.inner.final(g) ==> f == g)
    && (forall f, g :: ser.final(f) == ser.final(g) ==> f == g)
  }

  /** So whoever reads a witness final finds the outcomes its ID names, and no others. */
  lemma WitnessFinalIsAsNamed(
    ser: A.Serializer, calls: seq<Call>, schedule: seq<nat>, trace: seq<I.State>, n: nat, run: string, kind: Kind,
    f: W.FinalManifest)
    requires FaithfulFinals(ser) && History(ser, calls, schedule, trace) && n < |trace|
    requires kind in {WitnessAbstention, WitnessCompletion, WitnessTerminalAbstention}
    requires Id(run, kind) in trace[n].view && Id(run, kind) !in trace[0].view
    requires trace[n].view[Id(run, kind)].payload == ser.inner.final(f)
    ensures f.run == run && (f.terminalOutcome == Execute <==> kind == WitnessCompletion)
    ensures f.witnessOutcome == Abstain <==> kind == WitnessAbstention
    ensures f.checkpointFinalRef.None? <==> kind == WitnessAbstention
  {
    FinalsRecordTheirOutcome(ser, calls, schedule, trace, n, run, kind);
  }

  /** The same of the finals of the adjudicated runner. */
  lemma AdjudicationFinalIsAsNamed(
    ser: A.Serializer, calls: seq<Call>, schedule: seq<nat>, trace: seq<I.State>, n: nat, run: string, kind: Kind,
    f: A.FinalManifest)
    requires FaithfulFinals(ser) && History(ser, calls, schedule, trace) && n < |trace|
    requires kind in {AdjudicationAbstention, AdjudicationCompletion, AdjudicationTerminalAbstention}
    requires Id(run, kind) in trace[n].view && Id(run, kind) !in trace[0].view
    requires trace[n].view[Id(run, kind)].payload == ser.final(f)
    ensures f.run == run && (f.terminalOutcome == Execute <==> kind == AdjudicationCompletion)
    ensures f.adjudicationOutcome == Abstain <==> kind == AdjudicationAbstention
    ensures f.checkpointFinalRef.None? <==> kind == AdjudicationAbstention
  {
    FinalsRecordTheirOutcome(ser, calls, schedule, trace, n, run, kind);
  }
}
