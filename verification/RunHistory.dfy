/**
Whole histories of runner calls on one store.

Calls of both runners, repeated or cut short anywhere, publications and delegated runners all
append to one store in any interleaving.  Because every run stores its decisions under fixed IDs
before its finals, and no binding ever changes, a run cannot end in two contradictory ways, neither
at one gate nor across the two.
*/
module RunHistory {
  import opened Artifacts
  import opened ArtifactStore
  import opened AppendScript
  import opened Governance
  import opened RunArtifactIds
  import opened StoredRecords
  import I = Interleaving
  import C = CheckpointLog
  import G = WitnessGate
  import W = WitnessRunner
  import A = AdjudicatedRunner

  /** One writer: a runner call with its delegated behaviours, or anything that uses no run's names. */
  datatype Call =
    | WitnessCall(witnessInputs: W.RunInputs, inner: W.Behaviour)
    | AdjudicatedCall(inputs: A.RunInputs, inner: W.Behaviour, own: W.Behaviour)
    | OtherCall(script: seq<Artifact>)

  ghost predicate AllForeign(script: seq<Artifact>) {
    forall k :: 0 <= k < |script| ==> Foreign(script[k].id)
  }

  /** The outer layer adjudicates what the inner one decides; `RunsAreLegal` derives this from the loads. */
  ghost predicate LegalCall(h: Hashing, c: Call) {
    match c
    case WitnessCall(_, inner) => W.Honest(h, inner)
    case AdjudicatedCall(i, inner, own) =>
      && W.Honest(h, inner) && W.Honest(h, own)
      && i.adjudication.decision == i.inner.decision && i.decision == G.AdjudicationDecisionOf(i.adjudication)
    case OtherCall(script) => AllForeign(script)
  }

  /** Every adjudicated run whose evidence loads is a legal call, however the store grew between its loads. */
  lemma RunsAreLegal(
    h: Hashing, s: C.Scheme, parser: Parser, q: A.Request, before: View, ran: View, inner: W.Behaviour, own: W.Behaviour)
    requires A.RequestConstructed(s, parser, q) && A.EvidenceIn(before, s, parser, q).Some? && Extends(before, ran)
    requires W.Honest(h, inner) && W.Honest(h, own)
    ensures A.BothLoad(s, parser, q, before, ran)
    ensures LegalCall(h, AdjudicatedCall(A.InputsOf(s, parser, q, before, ran), inner, own))
  {
    A.DecisionIsReproduced(s, parser, q, before, ran);
  }

  function ScriptOf(ser: A.Serializer, c: Call): seq<Artifact> {
    match c
    case WitnessCall(i, inner) => W.Script(ser.inner, i, inner)
    case AdjudicatedCall(i, inner, own) => A.Script(ser, i, inner, own)
    case OtherCall(script) => script
  }

  function Scripts(ser: A.Serializer, calls: seq<Call>): (scripts: seq<seq<Artifact>>)
    ensures |scripts| == |calls|
    ensures forall i :: 0 <= i < |scripts| ==> scripts[i] == ScriptOf(ser, calls[i])
  {
    seq(|calls|, i requires 0 <= i < |calls| => ScriptOf(ser, calls[i]))
  }

  /** Canonical serialization loses no decision. */
  ghost predicate Faithful(ser: A.Serializer) {
    && (forall d, e :: ser.inner.decision(d) == ser.inner.decision(e) ==> d == e)
    && (forall d, e :: ser.decision(d) == ser.decision(e) ==> d == e)
  }

  // ----- which decision stands before which final -----

  datatype Gate = WitnessGate | AdjudicationGate

  function DecisionKind(g: Gate): Kind {
    if g == WitnessGate then WitnessDecision else AdjudicationDecision
  }

  /** The finals of a gate that abstained, and of a gate that executed. */
  function FinalKinds(g: Gate, outcome: Outcome): set<Kind> {
    match (g, outcome)
    case (WitnessGate, Abstain) => {WitnessAbstention}
    case (WitnessGate, Execute) => {WitnessCompletion, WitnessTerminalAbstention}
    case (AdjudicationGate, Abstain) => {AdjudicationAbstention}
    case (AdjudicationGate, Execute) => {AdjudicationCompletion, AdjudicationTerminalAbstention}
  }

  ghost predicate Records(ser: A.Serializer, g: Gate, payload: Bytes, outcome: Outcome) {
    match g
    case WitnessGate => exists d :: ser.inner.decision(d) == payload && d.outcome == outcome
    case AdjudicationGate => exists d :: ser.decision(d) == payload && d.outcome == outcome
  }

  /** Position `d` of the script stores a decision with this outcome for this run. */
  ghost predicate DecidesAt(ser: A.Serializer, script: seq<Artifact>, g: Gate, run: string, outcome: Outcome, d: nat) {
    d < |script| && script[d].id == Id(run, DecisionKind(g)) && Records(ser, g, script[d].payload, outcome)
  }

  /** Finals of these kinds stand behind a decision of this gate with this outcome. */
  datatype Rule = Rule(finals: set<Kind>, gate: Gate, outcome: Outcome)

  function GateRule(g: Gate, outcome: Outcome): Rule {
    Rule(FinalKinds(g, outcome), g, outcome)
  }

  /** Adjudication abstains only over witnesses that abstained. */
  const CROSS_GATE: Rule := Rule({AdjudicationAbstention}, WitnessGate, Abstain)

  predicate Known(rule: Rule) {
    rule == GateRule(rule.gate, rule.outcome) || rule == CROSS_GATE
  }

  /** Every final in the script comes after the decision that allows it. */
  ghost predicate DecidesFirst(ser: A.Serializer, script: seq<Artifact>, rule: Rule) {
    forall k: nat, run: string, kind: Kind ::
      k < |script| && kind in rule.finals && script[k].id == Id(run, kind) ==>
        exists d: nat :: d < k && DecidesAt(ser, script, rule.gate, run, rule.outcome, d)
  }

  ghost predicate NoFinals(script: seq<Artifact>, finals: set<Kind>) {
    forall k: nat, run: string, kind: Kind ::
      k < |script| && kind in finals ==> script[k].id != Id(run, kind)
  }

  lemma NoFinalsDecidesFirst(ser: A.Serializer, script: seq<Artifact>, rule: Rule)
    requires NoFinals(script, rule.finals)
    ensures DecidesFirst(ser, script, rule)
  {
  }

  lemma ForeignHasNoFinals(script: seq<Artifact>, finals: set<Kind>)
    requires AllForeign(script) && CheckpointVerification !in finals
    ensures NoFinals(script, finals)
  {
  }

  lemma SingleHasNoFinals(a: Artifact, owner: string, k: Kind, finals: set<Kind>)
    requires a.id == Id(owner, k) && k !in finals
    ensures NoFinals([a], finals)
  {
    forall run: string, kind: Kind | kind in finals ensures a.id != Id(run, kind) {
      if a.id == Id(run, kind) {
        IdsAreInjective(owner, k, run, kind);
      }
    }
  }

  lemma DecidesFirstThenNoFinals(ser: A.Serializer, first: seq<Artifact>, second: seq<Artifact>, rule: Rule)
    requires DecidesFirst(ser, first, rule) && NoFinals(second, rule.finals)
    ensures DecidesFirst(ser, first + second, rule)
  {
    var script := first + second;
    assert forall m: nat :: |first| <= m < |script| ==> script[m] == second[m - |first|];
    forall k: nat, run: string, kind: Kind
      | k < |script| && kind in rule.finals && script[k].id == Id(run, kind)
      ensures exists d: nat :: d < k && DecidesAt(ser, script, rule.gate, run, rule.outcome, d)
    {
      assert script[k] == first[k];
      var d: nat :| d < k && DecidesAt(ser, first, rule.gate, run, rule.outcome, d);
      assert DecidesAt(ser, script, rule.gate, run, rule.outcome, d);
    }
  }

  lemma NoFinalsTogether(first: seq<Artifact>, second: seq<Artifact>, finals: set<Kind>)
    requires NoFinals(first, finals) && NoFinals(second, finals)
    ensures NoFinals(first + second, finals)
  {
    var script := first + second;
    forall k: nat, run: string, kind: Kind | k < |script| && kind in finals
      ensures script[k].id != Id(run, kind)
    {
      assert script[k] == if k < |first| then first[k] else second[k - |first|];
    }
  }

  /** A final appended at the end of a script that has decided. */
  lemma FinalAfterDecision(
    ser: A.Serializer, first: seq<Artifact>, final: Artifact, rule: Rule, owner: string, k: Kind, d: nat)
    requires DecidesFirst(ser, first, rule) && final.id == Id(owner, k)
    requires k in rule.finals ==> DecidesAt(ser, first, rule.gate, owner, rule.outcome, d)
    ensures DecidesFirst(ser, first + [final], rule)
  {
    var script := first + [final];
    forall n: nat, run: string, kind: Kind
      | n < |script| && kind in rule.finals && script[n].id == Id(run, kind)
      ensures exists d: nat :: d < n && DecidesAt(ser, script, rule.gate, run, rule.outcome, d)
    {
      if n == |first| {
        IdsAreInjective(owner, k, run, kind);
        assert DecidesAt(ser, script, rule.gate, run, rule.outcome, d);
      } else {
        assert script[n] == first[n];
        var e: nat :| e < n && DecidesAt(ser, first, rule.gate, run, rule.outcome, e);
        assert DecidesAt(ser, script, rule.gate, run, rule.outcome, e);
      }
    }
  }

  lemma HeadHasNoFinals(ser: W.Serializer, i: W.RunInputs, finals: set<Kind>)
    requires CheckpointVerification !in finals && WitnessDecision !in finals
    ensures NoFinals(W.Head(ser, i), finals)
  {
    var key := W.ExperimentKey(i.log.plan);
    var report, reportMarker := W.ReportArtifact(ser, i), W.ReportMarker(ser, i);
    var decision, decisionMarker := W.DecisionArtifact(ser, i), W.DecisionMarker(ser, i);
    SingleHasNoFinals(report, i.run, CheckpointVerification, finals);
    SingleHasNoFinals(reportMarker, key, CheckpointVerification, finals);
    SingleHasNoFinals(decision, i.run, WitnessDecision, finals);
    SingleHasNoFinals(decisionMarker, W.ExperimentKey(i.witnesses.plan), WitnessDecision, finals);
    NoFinalsTogether([report], [reportMarker], finals);
    NoFinalsTogether([decision], [decisionMarker], finals);
    assert W.Head(ser, i) == ([report] + [reportMarker]) + ([decision] + [decisionMarker]);
    NoFinalsTogether([report] + [reportMarker], [decision] + [decisionMarker], finals);
  }

  lemma WitnessScriptDecidesFirst(ser: A.Serializer, i: W.RunInputs, b: W.Behaviour, rule: Rule)
    requires W.Honest(ser.inner.h, b) && Known(rule)
    ensures DecidesFirst(ser, W.Script(ser.inner, i, b), rule)
  {
    var head, middle := W.Head(ser.inner, i), W.DelegatedScript(i, b);
    HeadHasNoFinals(ser.inner, i, rule.finals);
    ForeignHasNoFinals(middle, rule.finals);
    NoFinalsTogether(head, middle, rule.finals);
    NoFinalsDecidesFirst(ser, head + middle, rule);
    if W.Finishes(i, b) {
      var final := W.Final(ser.inner, i, W.Delegated(i, b));
      var k := W.FinalKind(final.witnessOutcome, final.terminalOutcome);
      assert (head + middle)[2] == W.DecisionArtifact(ser.inner, i);
      assert i.decision.outcome == final.witnessOutcome;
      FinalAfterDecision(ser, head + middle, W.FinalArtifact(ser.inner, i, b), rule, i.run, k, 2);
    } else {
      assert head + middle + [] == head + middle;
    }
  }

  /** Decision and delegated artifacts of the adjudicated runner add no final of either gate. */
  lemma AdjudicatedMiddle(
    ser: A.Serializer, i: A.RunInputs, b: W.Behaviour, own: W.Behaviour, inner: seq<Artifact>, rule: Rule)
    requires W.Honest(ser.inner.h, own) && DecidesFirst(ser, inner, rule) && Known(rule)
    ensures DecidesFirst(ser, inner + [A.DecisionArtifact(ser, i)] + A.OwnScript(i, b, own), rule)
  {
    var decision := A.DecisionArtifact(ser, i);
    SingleHasNoFinals(decision, i.inner.run, AdjudicationDecision, rule.finals);
    DecidesFirstThenNoFinals(ser, inner, [decision], rule);
    ForeignHasNoFinals(A.OwnScript(i, b, own), rule.finals);
    DecidesFirstThenNoFinals(ser, inner + [decision], A.OwnScript(i, b, own), rule);
  }

  /** Where the decision stands that allows an adjudicated final: the gate's own, or the witnesses'. */
  function DecisionPosition(rule: Rule, inner: seq<Artifact>): nat {
    if rule.gate == AdjudicationGate then |inner| else 2
  }

  lemma AdjudicatedDecides(
    ser: A.Serializer, i: A.RunInputs, b: W.Behaviour, delegated: Option<W.DelegatedReceipt>, rest: seq<Artifact>,
    rule: Rule)
    requires A.FinalKind(i.decision.outcome, A.Final(ser, i, b, delegated).terminalOutcome) in rule.finals && Known(rule)
    requires i.adjudication.decision == i.inner.decision && i.decision == G.AdjudicationDecisionOf(i.adjudication)
    ensures var inner := W.Script(ser.inner, i.inner, b);
            DecidesAt(ser, inner + [A.DecisionArtifact(ser, i)] + rest, rule.gate, i.inner.run, rule.outcome,
                      DecisionPosition(rule, inner))
  {
    var inner := W.Script(ser.inner, i.inner, b);
    var script := inner + [A.DecisionArtifact(ser, i)] + rest;
    WitnessScriptStarts(ser, i.inner, b);
    assert script[|inner|] == A.DecisionArtifact(ser, i);
    assert script[2] == inner[2];
  }

  lemma AdjudicatedScriptDecidesFirst(ser: A.Serializer, i: A.RunInputs, b: W.Behaviour, own: W.Behaviour, rule: Rule)
    requires LegalCall(ser.inner.h, AdjudicatedCall(i, b, own)) && Known(rule)
    ensures DecidesFirst(ser, A.Script(ser, i, b, own), rule)
  {
    var inner, middle := W.Script(ser.inner, i.inner, b), A.OwnScript(i, b, own);
    var sofar := inner + [A.DecisionArtifact(ser, i)] + middle;
    WitnessScriptDecidesFirst(ser, i.inner, b, rule);
    AdjudicatedMiddle(ser, i, b, own, inner, rule);
    if A.Finishes(i, b, own) {
      var k := A.FinalKind(i.decision.outcome, A.Final(ser, i, b, A.Delegated(i, b, own)).terminalOutcome);
      if k in rule.finals {
        AdjudicatedDecides(ser, i, b, A.Delegated(i, b, own), middle, rule);
      }
      FinalAfterDecision(
        ser, sofar, A.FinalArtifact(ser, i, b, own), rule, i.inner.run, k, DecisionPosition(rule, inner));
    } else {
      assert sofar + [] == sofar;
    }
  }

  lemma CallDecidesFirst(ser: A.Serializer, c: Call, rule: Rule)
    requires LegalCall(ser.inner.h, c) && Known(rule)
    ensures DecidesFirst(ser, ScriptOf(ser, c), rule)
  {
    match c {
      case WitnessCall(i, inner) => WitnessScriptDecidesFirst(ser, i, inner, rule);
      case AdjudicatedCall(i, inner, own) => AdjudicatedScriptDecidesFirst(ser, i, inner, own, rule);
      case OtherCall(script) =>
        ForeignHasNoFinals(script, rule.finals);
        NoFinalsDecidesFirst(ser, script, rule);
    }
  }

  // ----- histories -----

  ghost predicate History(ser: A.Serializer, calls: seq<Call>, schedule: seq<nat>, trace: seq<I.State>) {
    && (forall i :: 0 <= i < |calls| ==> LegalCall(ser.inner.h, calls[i]))
    && I.IsRun(Scripts(ser, calls), schedule, trace)
  }

  /** The store holds a final of one of these kinds for this run, which it did not hold at first. */
  ghost predicate Ended(initial: View, v: View, run: string, finals: set<Kind>) {
    exists kind :: kind in finals && Id(run, kind) in v && Id(run, kind) !in initial
  }

  /** The run's decision at this gate is in the store, with this outcome. */
  ghost predicate HasOutcome(ser: A.Serializer, v: View, g: Gate, run: string, outcome: Outcome) {
    var id := Id(run, DecisionKind(g));
    id in v && Records(ser, g, v[id].payload, outcome)
  }

  lemma DecisionIsStored(
    ser: A.Serializer, scripts: seq<seq<Artifact>>, schedule: seq<nat>, trace: seq<I.State>, n: nat,
    g: Gate, run: string, outcome: Outcome, i: nat, d: nat)
    requires I.IsRun(scripts, schedule, trace) && n < |trace|
    requires I.Reached(scripts, trace[n], i, d) && DecidesAt(ser, scripts[i], g, run, outcome, d)
    ensures HasOutcome(ser, trace[n].view, g, run, outcome)
  {
    I.RunKeeps(scripts, schedule, trace, n);
    assert Stored(trace[n].view, scripts[i][d]);
  }

  lemma FinalFollowsDecision(
    ser: A.Serializer, scripts: seq<seq<Artifact>>, schedule: seq<nat>, trace: seq<I.State>, n: nat,
    rule: Rule, run: string, kind: Kind)
    requires I.IsRun(scripts, schedule, trace) && n < |trace|
    requires forall i :: 0 <= i < |scripts| ==> DecidesFirst(ser, scripts[i], rule)
    requires kind in rule.finals && Id(run, kind) in trace[n].view && Id(run, kind) !in trace[0].view
    ensures HasOutcome(ser, trace[n].view, rule.gate, run, rule.outcome)
  {
    var i, k := I.NewIdWasAppended(scripts, schedule, trace, n, Id(run, kind));
    assert DecidesFirst(ser, scripts[i], rule);
    var d: nat :| d < k && DecidesAt(ser, scripts[i], rule.gate, run, rule.outcome, d);
    DecisionIsStored(ser, scripts, schedule, trace, n, rule.gate, run, rule.outcome, i, d);
  }

  /** A final in the store means that the decision allowing it is there too. */
  lemma FinalMeansDecision(
    ser: A.Serializer, calls: seq<Call>, schedule: seq<nat>, trace: seq<I.State>, n: nat, rule: Rule, run: string)
    requires History(ser, calls, schedule, trace) && n < |trace| && Known(rule)
    requires Ended(trace[0].view, trace[n].view, run, rule.finals)
    ensures HasOutcome(ser, trace[n].view, rule.gate, run, rule.outcome)
  {
    var scripts := Scripts(ser, calls);
    var kind :| kind in rule.finals && Id(run, kind) in trace[n].view && Id(run, kind) !in trace[0].view;
    forall i | 0 <= i < |scripts| ensures DecidesFirst(ser, scripts[i], rule) {
      CallDecidesFirst(ser, calls[i], rule);
    }
    FinalFollowsDecision(ser, scripts, schedule, trace, n, rule, run, kind);
  }

  /**
  In every history, a run whose gate once ended in abstention never shows a completion or a
  terminal abstention of that gate, nor the other way round.
  */
  lemma NoContradictoryFinals(
    ser: A.Serializer, calls: seq<Call>, schedule: seq<nat>, trace: seq<I.State>, n: nat, g: Gate, run: string)
    requires Faithful(ser) && History(ser, calls, schedule, trace) && n < |trace|
    ensures !(Ended(trace[0].view, trace[n].view, run, FinalKinds(g, Abstain))
              && Ended(trace[0].view, trace[n].view, run, FinalKinds(g, Execute)))
  {
    if Ended(trace[0].view, trace[n].view, run, FinalKinds(g, Abstain))
       && Ended(trace[0].view, trace[n].view, run, FinalKinds(g, Execute)) {
      FinalMeansDecision(ser, calls, schedule, trace, n, GateRule(g, Abstain), run);
      FinalMeansDecision(ser, calls, schedule, trace, n, GateRule(g, Execute), run);
    }
  }

  /**
  Across the gates: a run whose witnesses let it execute, to completion or to a terminal abstention,
  never shows an abstention of the adjudication, whichever calls of either runner wrote the two.
  */
  lemma GatesDoNotContradict(
    ser: A.Serializer, calls: seq<Call>, schedule: seq<nat>, trace: seq<I.State>, n: nat, run: string)
    requires Faithful(ser) && History(ser, calls, schedule, trace) && n < |trace|
    ensures !(Ended(trace[0].view, trace[n].view, run, FinalKinds(WitnessGate, Execute))
              && Ended(trace[0].view, trace[n].view, run, FinalKinds(AdjudicationGate, Abstain)))
  {
    if Ended(trace[0].view, trace[n].view, run, FinalKinds(WitnessGate, Execute))
       && Ended(trace[0].view, trace[n].view, run, FinalKinds(AdjudicationGate, Abstain)) {
      FinalMeansDecision(ser, calls, schedule, trace, n, GateRule(WitnessGate, Execute), run);
      FinalMeansDecision(ser, calls, schedule, trace, n, CROSS_GATE, run);
    }
  }

  lemma WitnessScriptStarts(ser: A.Serializer, i: W.RunInputs, b: W.Behaviour)
    ensures var script := W.Script(ser.inner, i, b);
            && |script| > 3 && script[0] == W.ReportArtifact(ser.inner, i)
            && script[1] == W.ReportMarker(ser.inner, i) && script[2] == W.DecisionArtifact(ser.inner, i)
  {
  }

  // ----- one run, any number of calls -----

  /** The witness layer's inputs of a call of either runner. */
  function WitnessLayer(c: Call): W.RunInputs
    requires !c.OtherCall?
  {
    if c.WitnessCall? then c.witnessInputs else c.inputs.inner
  }

  /** Both runners begin with the witness layer's script. */
  lemma CallStarts(ser: A.Serializer, c: Call)
    requires !c.OtherCall?
    ensures var script, i := ScriptOf(ser, c), WitnessLayer(c);
            && |script| > 3 && script[0] == W.ReportArtifact(ser.inner, i)
            && script[1] == W.ReportMarker(ser.inner, i) && script[2] == W.DecisionArtifact(ser.inner, i)
  {
    WitnessScriptStarts(ser, WitnessLayer(c), c.inner);
  }

  /** This call of either runner has stored its witness decision. */
  ghost predicate HasDecided(ser: A.Serializer, calls: seq<Call>, t: I.State, i: nat) {
    i < |calls| && !calls[i].OtherCall? && I.Reached(Scripts(ser, calls), t, i, 2)
  }

  /**
  Two calls of one run, of either runner, that both stored their witness decision stored the same
  one: a repeat with another evaluation time, corpus or observation does not get past that point.
  */
  lemma OneDecisionPerRun(
    ser: A.Serializer, calls: seq<Call>, schedule: seq<nat>, trace: seq<I.State>, n: nat, i: nat, j: nat)
    requires Faithful(ser) && History(ser, calls, schedule, trace) && n < |trace|
    requires HasDecided(ser, calls, trace[n], i) && HasDecided(ser, calls, trace[n], j)
    requires WitnessLayer(calls[i]).run == WitnessLayer(calls[j]).run
    ensures WitnessLayer(calls[i]).decision == WitnessLayer(calls[j]).decision
  {
    var x, y := WitnessLayer(calls[i]), WitnessLayer(calls[j]);
    CallStarts(ser, calls[i]);
    CallStarts(ser, calls[j]);
    I.SameIdSameArtifact(Scripts(ser, calls), schedule, trace, n, i, 2, j, 2);
    SamePayload(ser.inner.h, Id(x.run, WitnessDecision), ser.inner.decision(x.decision), ser.inner.decision(y.decision));
  }

  lemma SamePayload(h: Hashing, id: string, x: Bytes, y: Bytes)
    ensures MakeArtifact(h, id, x) == MakeArtifact(h, id, y) <==> x == y
  {
  }

  /** The adjudication decision stands right behind the inner run's script. */
  function AdjudicationPosition(ser: A.Serializer, c: Call): nat
    requires c.AdjudicatedCall?
  {
    |W.Script(ser.inner, c.inputs.inner, c.inner)|
  }

  ghost predicate HasAdjudicated(ser: A.Serializer, calls: seq<Call>, t: I.State, i: nat) {
    && i < |calls| && calls[i].AdjudicatedCall?
    && I.Reached(Scripts(ser, calls), t, i, AdjudicationPosition(ser, calls[i]))
  }

  lemma AdjudicationStands(ser: A.Serializer, c: Call)
    requires c.AdjudicatedCall?
    ensures AdjudicationPosition(ser, c) < |ScriptOf(ser, c)|
    ensures ScriptOf(ser, c)[AdjudicationPosition(ser, c)] == A.DecisionArtifact(ser, c.inputs)
  {
  }

  /** Two adjudicated calls of one run that both stored an adjudication decision stored the same one. */
  lemma OneAdjudicationPerRun(
    ser: A.Serializer, calls: seq<Call>, schedule: seq<nat>, trace: seq<I.State>, n: nat, i: nat, j: nat)
    requires Faithful(ser) && History(ser, calls, schedule, trace) && n < |trace|
    requires HasAdjudicated(ser, calls, trace[n], i) && HasAdjudicated(ser, calls, trace[n], j)
    requires calls[i].inputs.inner.run == calls[j].inputs.inner.run
    ensures calls[i].inputs.decision == calls[j].inputs.decision
  {
    var x, y := calls[i].inputs, calls[j].inputs;
    AdjudicationStands(ser, calls[i]);
    AdjudicationStands(ser, calls[j]);
    I.SameIdSameArtifact(
      Scripts(ser, calls), schedule, trace, n,
      i, AdjudicationPosition(ser, calls[i]), j, AdjudicationPosition(ser, calls[j]));
    SamePayload(ser.inner.h, Id(x.inner.run, AdjudicationDecision), ser.decision(x.decision), ser.decision(y.decision));
  }

  /**
  A run named exactly like its experiment and version can never get anywhere, under either runner:
  its own checkpoint report and the experiment's marker claim one ID for different documents.
  */
  lemma SelfNamedRunStops(
    ser: A.Serializer, calls: seq<Call>, schedule: seq<nat>, trace: seq<I.State>, n: nat, i: nat)
    requires History(ser, calls, schedule, trace) && n < |trace|
    requires i < |calls| && !calls[i].OtherCall?
    requires WitnessLayer(calls[i]).run == W.ExperimentKey(WitnessLayer(calls[i]).log.plan)
    requires forall r, m :: ser.inner.report(r) != ser.inner.checkpointMarker(m)
    ensures !I.Reached(Scripts(ser, calls), trace[n], i, 1)
  {
    var scripts := Scripts(ser, calls);
    CallStarts(ser, calls[i]);
    I.RunKeeps(scripts, schedule, trace, n);
    assert I.Reached(scripts, trace[n], i, 1) ==> I.Reached(scripts, trace[n], i, 0);
  }
}
