/**
Many publications on one store.

Any number of persist calls, at any levels, run side by side, interleaved at single appends,
refused or crashed anywhere.  A corpus document found in the store then stands for a complete,
validated graph, down to what the store held at first, and its presence means that a matching load
succeeds exactly if every call that may publish it carries the members the load needs.
*/
module PublicationRuns {
  import opened Artifacts
  import opened ArtifactStore
  import opened AppendScript
  import opened StoredRecords
  import opened Publication
  import C = CheckpointLog

  datatype Phase = Waiting | Writing(done: nat) | Published | Abandoned

  /** One persist call.  `accepted` is what its guards and validator say; they read its own inputs only. */
  datatype Process = Process(level: Level, docs: Documents, accepted: bool, phase: Phase)

  /** The call has the documents of its level, and is accepted exactly if that level's validator accepts. */
  ghost predicate Legal(s: C.Scheme, r: Parser, p: Process) {
    && Constructed(s, p.level) && Serializes(s, r, p.level, p.docs)
    && (p.accepted <==> Accepted(s, p.level))
  }

  ghost predicate AllLegal(s: C.Scheme, r: Parser, ps: seq<Process>) {
    forall i :: 0 <= i < |ps| ==> Legal(s, r, ps[i])
  }

  datatype State = State(view: View, processes: seq<Process>)

  /** `Crash(i, true)` stops an append after it has bound its ID. */
  datatype Step = Start(i: nat) | Append(i: nat) | Load(i: nat) | Crash(i: nat, bound: bool)

  predicate Free(v: View, a: Artifact) {
    a.id in v ==> v[a.id] == a
  }

  ghost predicate Enabled(s: State, step: Step) {
    && step.i < |s.processes|
    && var p := s.processes[step.i];
       match step
       case Start(_) => p.phase == Waiting
       case Append(_) => p.phase.Writing? && p.phase.done < |p.docs.Script()|
       case Load(_) => p.phase.Writing? && p.phase.done == |p.docs.Script()|
       case Crash(_, bound) =>
         bound ==> p.phase.Writing? && p.phase.done < |p.docs.Script()| && Free(s.view, p.docs.Script()[p.phase.done])
  }

  function Move(s: State, i: nat, phase: Phase): State
    requires i < |s.processes|
  {
    s.(processes := s.processes[i := s.processes[i].(phase := phase)])
  }

  function Bind(s: State, a: Artifact): State {
    s.(view := s.view[a.id := a])
  }

  ghost function Apply(s: State, step: Step): State
    requires Enabled(s, step)
  {
    var p := s.processes[step.i];
    match step
    case Start(i) => Move(s, i, if p.accepted && Stored(s.view, p.docs.predecessor) then Writing(0) else Abandoned)
    case Append(i) =>
      var a := p.docs.Script()[p.phase.done];
      if Free(s.view, a) then Bind(Move(s, i, Writing(p.phase.done + 1)), a) else Move(s, i, Abandoned)
    case Load(i) => Move(s, i, if Loadable(s.view, p.docs) then Published else Abandoned)
    case Crash(i, bound) =>
      if bound then Bind(Move(s, i, Abandoned), p.docs.Script()[p.phase.done]) else Move(s, i, Abandoned)
  }

  /** No call's member; corpus documents and their predecessors are none. */
  ghost predicate NoMember(ps: seq<Process>, a: Artifact) {
    forall i :: 0 <= i < |ps| ==> a !in ps[i].docs.members
  }

  ghost predicate Separate(ps: seq<Process>) {
    forall i :: 0 <= i < |ps| ==> NoMember(ps, ps[i].docs.corpus) && NoMember(ps, ps[i].docs.predecessor)
  }

  /** The kinds of a call's documents, without their contents. */
  ghost predicate Kinded(r: Parser, p: Process) {
    && r.kind(p.docs.corpus) == CorpusDocument && r.kind(p.docs.predecessor) == CorpusDocument
    && forall m :: m in p.docs.members ==> r.kind(m) != CorpusDocument
  }

  lemma SerializedIsKinded(s: C.Scheme, r: Parser, level: Level, docs: Documents)
    requires Serializes(s, r, level, docs)
    ensures r.kind(docs.corpus) == CorpusDocument && r.kind(docs.predecessor) == CorpusDocument
    ensures docs.corpus !in docs.members && forall m :: m in docs.members ==> r.kind(m) != CorpusDocument
  {
    MembersHaveKinds(r, level, docs);
  }

  lemma LegalIsKinded(s: C.Scheme, r: Parser, p: Process)
    requires Legal(s, r, p)
    ensures Kinded(r, p)
  {
    SerializedIsKinded(s, r, p.level, p.docs);
  }

  /** A corpus document is of another kind than every member. */
  lemma CorpusIsNoMember(s: C.Scheme, r: Parser, ps: seq<Process>, a: Artifact)
    requires AllLegal(s, r, ps)
    requires r.kind(a) == CorpusDocument
    ensures NoMember(ps, a)
  {
    forall i | 0 <= i < |ps| ensures a !in ps[i].docs.members {
      LegalIsKinded(s, r, ps[i]);
    }
  }

  lemma LegalCallsAreSeparate(s: C.Scheme, r: Parser, ps: seq<Process>)
    requires AllLegal(s, r, ps)
    ensures Separate(ps)
  {
    forall i | 0 <= i < |ps| ensures NoMember(ps, ps[i].docs.corpus) && NoMember(ps, ps[i].docs.predecessor) {
      LegalIsKinded(s, r, ps[i]);
      CorpusIsNoMember(s, r, ps, ps[i].docs.corpus);
      CorpusIsNoMember(s, r, ps, ps[i].docs.predecessor);
    }
  }

  /**
  `chain` accounts for document `a`: the first process published it whole, the next one its
  predecessor, and so on down to a document the store held from the start.
  */
  ghost predicate Accounts(initial: View, s: State, chain: seq<nat>, a: Artifact)
    decreases |chain|
  {
    if chain == [] then Stored(initial, a)
    else
      && chain[0] < |s.processes|
      && var p := s.processes[chain[0]];
         && p.docs.corpus == a && p.accepted && Loadable(s.view, p.docs)
         && Accounts(initial, s, chain[1..], p.docs.predecessor)
  }

  ghost predicate Accounted(initial: View, s: State, a: Artifact) {
    exists chain :: Accounts(initial, s, chain, a)
  }

  ghost predicate ProcessInv(s: State, p: Process) {
    match p.phase
    case Waiting => true
    case Abandoned => true
    case Writing(n) =>
      && p.accepted && n <= |p.docs.Script()| && Stored(s.view, p.docs.predecessor)
      && AllStored(s.view, p.docs.Script()[..n])
    case Published =>
      p.accepted && Stored(s.view, p.docs.predecessor) && Loadable(s.view, p.docs)
  }

  ghost predicate Inv(initial: View, s: State) {
    && Extends(initial, s.view)
    && (forall i :: 0 <= i < |s.processes| ==> ProcessInv(s, s.processes[i]))
    && forall a :: NoMember(s.processes, a) && Stored(s.view, a) ==> Accounted(initial, s, a)
  }

  /** The same calls are in progress; only their phases may have changed. */
  ghost predicate SameCalls(ps: seq<Process>, qs: seq<Process>) {
    |ps| == |qs| && forall i :: 0 <= i < |ps| ==>
      qs[i].level == ps[i].level && qs[i].docs == ps[i].docs && qs[i].accepted == ps[i].accepted
  }

  /** The next document this call has to append is stored as another artifact under its ID. */
  predicate Blocked(s: State, p: Process) {
    p.phase.Writing? && p.phase.done < |p.docs.Script()| && !Free(s.view, p.docs.Script()[p.phase.done])
  }

  /**
  When a call gives up: at its start without an accepting validator or a stored predecessor, at an
  append whose ID another artifact has, or in a crash.  Otherwise it goes on by one document, and its
  closing load never fails it.
  */
  lemma AbandonsExactly(initial: View, s: State, step: Step)
    requires Inv(initial, s) && Enabled(s, step)
    ensures var p, q := s.processes[step.i], Apply(s, step).processes[step.i];
            && (q.phase == Abandoned <==>
                  || (step.Start? && !(p.accepted && Stored(s.view, p.docs.predecessor)))
                  || (step.Append? && Blocked(s, p))
                  || step.Crash?)
            && (q.phase == Published <==> step.Load?)
            && (q.phase != Abandoned && step.Start? ==> q.phase == Writing(0))
            && (q.phase != Abandoned && step.Append? ==>
                  q.phase == Writing(p.phase.done + 1) && Stored(Apply(s, step).view, p.docs.Script()[p.phase.done]))
    ensures forall j :: 0 <= j < |s.processes| && j != step.i ==> Apply(s, step).processes[j] == s.processes[j]
  {
    assert ProcessInv(s, s.processes[step.i]);
    if step.Load? {
      var p := s.processes[step.i];
      assert p.docs.Script()[..|p.docs.Script()|] == p.docs.Script();
    }
  }

  lemma ApplyExtends(s: State, step: Step)
    requires Enabled(s, step)
    ensures Extends(s.view, Apply(s, step).view) && SameCalls(s.processes, Apply(s, step).processes)
  {
  }

  lemma ProcessInvGrows(s: State, t: State, p: Process)
    requires ProcessInv(s, p) && Extends(s.view, t.view)
    ensures ProcessInv(t, p)
  {
    if p.phase.Writing? {
      AllStoredGrows(s.view, t.view, p.docs.Script()[..p.phase.done]);
    } else if p.phase.Published? {
      AllStoredGrows(s.view, t.view, p.docs.Script());
    }
  }

  lemma {:induction false} AccountsGrows(initial: View, s: State, t: State, chain: seq<nat>, a: Artifact)
    requires Accounts(initial, s, chain, a) && Extends(s.view, t.view) && SameCalls(s.processes, t.processes)
    ensures Accounts(initial, t, chain, a)
    decreases |chain|
  {
    if chain != [] {
      var p := s.processes[chain[0]];
      AllStoredGrows(s.view, t.view, p.docs.Script());
      AccountsGrows(initial, s, t, chain[1..], p.docs.predecessor);
    }
  }

  /** The process that moved keeps its own invariant. */
  lemma MovedProcessInv(initial: View, s: State, step: Step)
    requires Inv(initial, s) && Enabled(s, step)
    ensures ProcessInv(Apply(s, step), Apply(s, step).processes[step.i])
  {
    var p := s.processes[step.i];
    var t := Apply(s, step);
    assert ProcessInv(s, p);
    ApplyExtends(s, step);
    if step.Append? && t.processes[step.i].phase.Writing? {
      var n := p.phase.done;
      AllStoredGrows(s.view, t.view, p.docs.Script()[..n]);
      assert p.docs.Script()[..n + 1] == p.docs.Script()[..n] + [p.docs.Script()[n]];
    }
  }

  lemma NoMemberIsNotWritten(ps: seq<Process>, i: nat, a: Artifact)
    requires NoMember(ps, a) && i < |ps|
    ensures forall n :: 0 <= n < |ps[i].docs.members| ==> ps[i].docs.Script()[n] != a
  {
    assert a !in ps[i].docs.members;
  }

  /** A binding of a corpus document is made only by the process that publishes it, as its last append. */
  lemma NewDocumentIsPublishedWhole(initial: View, s: State, step: Step, a: Artifact)
    requires Inv(initial, s) && Enabled(s, step) && Separate(s.processes)
    requires NoMember(s.processes, a) && Stored(Apply(s, step).view, a) && !Stored(s.view, a)
    ensures var p := s.processes[step.i];
            p.docs.corpus == a && p.accepted && Stored(s.view, p.docs.predecessor) && Loadable(Apply(s, step).view, p.docs)
  {
    var p := s.processes[step.i];
    var t := Apply(s, step);
    assert ProcessInv(s, p);
    ApplyExtends(s, step);
    var n := p.phase.done;
    var script := p.docs.Script();
    assert a == script[n];
    NoMemberIsNotWritten(s.processes, step.i, a);
    AllStoredGrows(s.view, t.view, script[..n]);
    assert script == script[..n] + [script[n]];
  }

  lemma StepKeeps(initial: View, s: State, step: Step)
    requires Inv(initial, s) && Enabled(s, step) && Separate(s.processes)
    ensures Inv(initial, Apply(s, step)) && Separate(Apply(s, step).processes)
  {
    var t := Apply(s, step);
    ApplyExtends(s, step);
    ExtendsTransitive(initial, s.view, t.view);
    forall i | 0 <= i < |t.processes| ensures ProcessInv(t, t.processes[i]) {
      if i == step.i {
        MovedProcessInv(initial, s, step);
      } else {
        ProcessInvGrows(s, t, s.processes[i]);
      }
    }
    SeparateStays(s.processes, t.processes);
    SameCallsBack(s.processes, t.processes);
    forall a | NoMember(t.processes, a) && Stored(t.view, a) ensures Accounted(initial, t, a) {
      NoMemberStays(t.processes, s.processes, a);
      DocumentStaysAccounted(initial, s, step, a);
    }
  }

  lemma NoMemberStays(ps: seq<Process>, qs: seq<Process>, a: Artifact)
    requires SameCalls(ps, qs) && NoMember(ps, a)
    ensures NoMember(qs, a)
  {
    forall i | 0 <= i < |qs| ensures a !in qs[i].docs.members {
      assert a !in ps[i].docs.members && ps[i].docs == qs[i].docs;
    }
  }

  lemma SeparateStays(ps: seq<Process>, qs: seq<Process>)
    requires SameCalls(ps, qs) && Separate(ps)
    ensures Separate(qs)
  {
    forall i | 0 <= i < |qs| ensures NoMember(qs, qs[i].docs.corpus) && NoMember(qs, qs[i].docs.predecessor) {
      assert ps[i].docs == qs[i].docs;
      NoMemberStays(ps, qs, ps[i].docs.corpus);
      NoMemberStays(ps, qs, ps[i].docs.predecessor);
    }
  }

  lemma SameCallsBack(ps: seq<Process>, qs: seq<Process>)
    requires SameCalls(ps, qs)
    ensures SameCalls(qs, ps)
  {
  }

  lemma DocumentStaysAccounted(initial: View, s: State, step: Step, a: Artifact)
    requires Inv(initial, s) && Enabled(s, step) && Separate(s.processes)
    requires NoMember(s.processes, a) && Stored(Apply(s, step).view, a)
    ensures Accounted(initial, Apply(s, step), a)
  {
    var t := Apply(s, step);
    ApplyExtends(s, step);
    if Stored(s.view, a) {
      var chain :| Accounts(initial, s, chain, a);
      AccountsGrows(initial, s, t, chain, a);
    } else {
      NewDocumentIsPublishedWhole(initial, s, step, a);
      var p := s.processes[step.i];
      var chain :| Accounts(initial, s, chain, p.docs.predecessor);
      AccountsGrows(initial, s, t, chain, p.docs.predecessor);
      var longer := [step.i] + chain;
      assert longer[1..] == chain;
      assert Accounts(initial, t, longer, a);
    }
  }

  // ----- whole histories -----

  ghost predicate StepAt(steps: seq<Step>, trace: seq<State>, n: nat)
    requires n < |steps| && n + 1 < |trace|
  {
    Enabled(trace[n], steps[n]) && trace[n + 1] == Apply(trace[n], steps[n])
  }

  ghost predicate IsRun(steps: seq<Step>, trace: seq<State>) {
    |trace| == |steps| + 1 && forall n :: 0 <= n < |steps| ==> StepAt(steps, trace, n)
  }

  /** Every call is still waiting, over any store whatever. */
  ghost predicate AllWaiting(s: State) {
    && Separate(s.processes)
    && forall i :: 0 <= i < |s.processes| ==> s.processes[i].phase == Waiting
  }

  /** Every call is a legal call that is still waiting. */
  ghost predicate Initial(s: C.Scheme, r: Parser, state: State) {
    && AllLegal(s, r, state.processes)
    && forall i :: 0 <= i < |state.processes| ==> state.processes[i].phase == Waiting
  }

  lemma InitialWaits(s: C.Scheme, r: Parser, state: State)
    requires Initial(s, r, state)
    ensures AllWaiting(state)
  {
    LegalCallsAreSeparate(s, r, state.processes);
  }

  lemma InitialInv(s: State)
    requires AllWaiting(s)
    ensures Inv(s.view, s)
  {
    forall a | Stored(s.view, a) ensures Accounted(s.view, s, a) {
      assert Accounts(s.view, s, [], a);
    }
  }

  lemma {:induction false} RunKeeps(steps: seq<Step>, trace: seq<State>, m: nat, n: nat)
    requires IsRun(steps, trace) && AllWaiting(trace[0]) && m <= n < |trace|
    ensures Inv(trace[0].view, trace[n]) && Separate(trace[n].processes)
    ensures Extends(trace[m].view, trace[n].view) && SameCalls(trace[m].processes, trace[n].processes)
    decreases n
  {
    if n == 0 {
      InitialInv(trace[0]);
    } else {
      RunKeeps(steps, trace, if m < n then m else n - 1, n - 1);
      assert StepAt(steps, trace, n - 1);
      StepKeeps(trace[0].view, trace[n - 1], steps[n - 1]);
      ApplyExtends(trace[n - 1], steps[n - 1]);
      if m < n {
        ExtendsTransitive(trace[m].view, trace[n - 1].view, trace[n].view);
      }
    }
  }

  /** This call published its document whole, and the validator of its level accepts its records. */
  ghost predicate Validated(s: C.Scheme, r: Parser, v: View, p: Process) {
    Legal(s, r, p) && Accepted(s, p.level) && Loadable(v, p.docs)
  }

  /** The same account of `a`, in which every call's validator accepts. */
  ghost predicate ValidatedChain(s: C.Scheme, r: Parser, state: State, chain: seq<nat>, a: Artifact)
    decreases |chain|
  {
    chain != [] ==>
      && chain[0] < |state.processes|
      && var p := state.processes[chain[0]];
         && p.docs.corpus == a && Validated(s, r, state.view, p)
         && ValidatedChain(s, r, state, chain[1..], p.docs.predecessor)
  }

  lemma {:induction false} AccountsAreValidated(
    s: C.Scheme, r: Parser, initial: View, state: State, chain: seq<nat>, a: Artifact)
    requires Accounts(initial, state, chain, a)
    requires AllLegal(s, r, state.processes)
    ensures ValidatedChain(s, r, state, chain, a)
    decreases |chain|
  {
    if chain != [] {
      var p := state.processes[chain[0]];
      AccountsAreValidated(s, r, initial, state, chain[1..], p.docs.predecessor);
      assert Legal(s, r, p);
    }
  }

  lemma LegalStays(s: C.Scheme, r: Parser, ps: seq<Process>, qs: seq<Process>)
    requires SameCalls(ps, qs) && AllLegal(s, r, ps)
    ensures AllLegal(s, r, qs)
  {
    forall i | 0 <= i < |qs| ensures Legal(s, r, qs[i]) {
      assert Legal(s, r, ps[i]);
    }
  }

  /**
  In any interleaving, a corpus document found in the store was there from the start or was
  published whole by a call whose validator accepts its records; the same holds of its predecessor,
  and so on down to a document of the initial store.  The chain stands, complete, in every later state.
  */
  lemma ManifestMeansCompleteGraph(
    s: C.Scheme, r: Parser, steps: seq<Step>, trace: seq<State>, m: nat, n: nat, a: Artifact)
    requires IsRun(steps, trace) && Initial(s, r, trace[0]) && m <= n < |trace|
    requires r.kind(a) == CorpusDocument && Stored(trace[m].view, a)
    ensures exists chain ::
              && Accounts(trace[0].view, trace[m], chain, a) && Accounts(trace[0].view, trace[n], chain, a)
              && ValidatedChain(s, r, trace[m], chain, a) && ValidatedChain(s, r, trace[n], chain, a)
  {
    InitialWaits(s, r, trace[0]);
    RunKeeps(steps, trace, m, m);
    RunKeeps(steps, trace, 0, m);
    RunKeeps(steps, trace, m, n);
    RunKeeps(steps, trace, 0, n);
    CorpusIsNoMember(s, r, trace[0].processes, a);
    NoMemberStays(trace[0].processes, trace[m].processes, a);
    LegalStays(s, r, trace[0].processes, trace[m].processes);
    LegalStays(s, r, trace[0].processes, trace[n].processes);
    assert Accounted(trace[0].view, trace[m], a);
    var chain :| Accounts(trace[0].view, trace[m], chain, a);
    AccountsGrows(trace[0].view, trace[m], trace[n], chain, a);
    AccountsAreValidated(s, r, trace[0].view, trace[m], chain, a);
    AccountsAreValidated(s, r, trace[0].view, trace[n], chain, a);
  }

  /** A call that reported success loads for good, with the evidence it published. */
  lemma PublishedStaysLoadable(s: C.Scheme, r: Parser, steps: seq<Step>, trace: seq<State>, m: nat, n: nat, i: nat)
    requires IsRun(steps, trace) && Initial(s, r, trace[0]) && m <= n < |trace|
    requires i < |trace[m].processes| && trace[m].processes[i].phase == Published
    ensures var p := trace[m].processes[i];
            Loadable(trace[n].view, p.docs) && Sized(p.level, p.docs)
            && LoadReturns(trace[n].view, s, r, p.level, p.docs, PopulationOf(p.level))
  {
    InitialWaits(s, r, trace[0]);
    RunKeeps(steps, trace, 0, m);
    RunKeeps(steps, trace, m, n);
    LegalStays(s, r, trace[0].processes, trace[m].processes);
    var p := trace[m].processes[i];
    assert ProcessInv(trace[m], p) && Legal(s, r, p);
    AllStoredGrows(trace[m].view, trace[n].view, p.docs.Script());
    ValidMatches(s, p.level);
    LoadableLoads(trace[n].view, s, r, p.level, p.docs);
  }

  /** The last check of a call that wrote its whole script cannot fail. */
  lemma LoadNeverFails(s: C.Scheme, r: Parser, steps: seq<Step>, trace: seq<State>, n: nat, i: nat)
    requires IsRun(steps, trace) && Initial(s, r, trace[0]) && n < |trace| && Enabled(trace[n], Load(i))
    ensures Apply(trace[n], Load(i)).processes[i].phase == Published
  {
    InitialWaits(s, r, trace[0]);
    RunKeeps(steps, trace, n, n);
    var p := trace[n].processes[i];
    assert ProcessInv(trace[n], p);
    assert p.docs.Script()[..|p.docs.Script()|] == p.docs.Script();
  }

  // ----- a document's presence and the loads that match it -----

  /** Every member of `docs` comes with `q` or is in the store already. */
  ghost predicate Covers(v: View, q: Documents, docs: Documents) {
    forall m :: m in docs.members ==> m in q.members || Stored(v, m)
  }

  ghost predicate SameDocument(p: Process, docs: Documents) {
    p.accepted && p.docs.corpus == docs.corpus
  }

  /** If every accepted call of a document covers `docs`, its presence means that `docs` is stored whole. */
  lemma CoveringCallsSuffice(steps: seq<Step>, trace: seq<State>, n: nat, docs: Documents)
    requires IsRun(steps, trace) && AllWaiting(trace[0]) && n < |trace|
    requires NoMember(trace[0].processes, docs.corpus) && !Stored(trace[0].view, docs.corpus)
    requires forall p :: p in trace[0].processes && SameDocument(p, docs) ==> Covers(trace[0].view, p.docs, docs)
    requires Stored(trace[n].view, docs.corpus)
    ensures Loadable(trace[n].view, docs)
  {
    RunKeeps(steps, trace, 0, n);
    NoMemberStays(trace[0].processes, trace[n].processes, docs.corpus);
    assert Accounted(trace[0].view, trace[n], docs.corpus);
    var chain :| Accounts(trace[0].view, trace[n], chain, docs.corpus);
    var p := trace[0].processes[chain[0]];
    assert p in trace[0].processes && SameDocument(p, docs);
    CoveredLoads(trace[0].view, trace[n].view, p.docs, docs);
  }

  lemma CoveredLoads(initial: View, v: View, q: Documents, docs: Documents)
    requires Extends(initial, v) && Loadable(v, q) && q.corpus == docs.corpus && Covers(initial, q, docs)
    ensures Loadable(v, docs)
  {
    ScriptMembers(q, v);
    ScriptMembers(docs, v);
  }

  /** Nothing stands in the way of this call. */
  ghost predicate Runnable(v: View, docs: Documents) {
    && Stored(v, docs.predecessor)
    && forall k :: 0 <= k < |docs.Script()| ==> Free(Inserted(v, docs.Script()[..k]), docs.Script()[k])
  }

  /** One more enabled step makes a longer run. */
  lemma RunGoesOn(steps: seq<Step>, trace: seq<State>, step: Step)
    requires IsRun(steps, trace) && Enabled(trace[|steps|], step)
    ensures IsRun(steps + [step], trace + [Apply(trace[|steps|], step)])
  {
    var longer, states := steps + [step], trace + [Apply(trace[|steps|], step)];
    forall n | 0 <= n < |longer| ensures StepAt(longer, states, n) {
      assert n < |steps| ==> StepAt(steps, trace, n);
    }
  }

  lemma {:induction false} SoloRun(start: State, i: nat, k: nat) returns (steps: seq<Step>, trace: seq<State>)
    requires AllWaiting(start) && i < |start.processes| && start.processes[i].accepted
    requires Runnable(start.view, start.processes[i].docs) && k <= |start.processes[i].docs.Script()|
    ensures IsRun(steps, trace) && trace[0] == start
    ensures trace[|trace| - 1] ==
            Move(start, i, Writing(k)).(view := Inserted(start.view, start.processes[i].docs.Script()[..k]))
    decreases k
  {
    if k == 0 {
      assert IsRun([], [start]);
      RunGoesOn([], [start], Start(i));
      steps, trace := [] + [Start(i)], [start] + [Apply(start, Start(i))];
    } else {
      var before, states := SoloRun(start, i, k - 1);
      var script := start.processes[i].docs.Script();
      var last := states[|states| - 1];
      InsertedSnoc(start.view, script[..k - 1], script[k - 1]);
      assert script[..k] == script[..k - 1] + [script[k - 1]];
      RunGoesOn(before, states, Append(i));
      steps, trace := before + [Append(i)], states + [Apply(last, Append(i))];
    }
  }

  lemma {:induction false} InsertedOrigin(v: View, script: seq<Artifact>, a: Artifact)
    requires Stored(Inserted(v, script), a)
    ensures Stored(v, a) || a in script
    decreases |script|
  {
    if script != [] {
      InsertedOrigin(v[script[0].id := script[0]], script[1..], a);
    }
  }

  /** Whenever the document is there, all of `docs` is stored. */
  ghost predicate PresenceMeansStored(start: State, docs: Documents) {
    forall steps: seq<Step>, trace: seq<State>, n: nat ::
      IsRun(steps, trace) && trace[0] == start && n < |trace| && Stored(trace[n].view, docs.corpus) ==>
        Loadable(trace[n].view, docs)
  }

  /** Alone, a runnable call publishes its document, and stores nothing but its own script. */
  lemma PublishedAlone(start: State, i: nat) returns (steps: seq<Step>, trace: seq<State>)
    requires AllWaiting(start) && i < |start.processes| && start.processes[i].accepted
    requires Runnable(start.view, start.processes[i].docs)
    ensures IsRun(steps, trace) && trace[0] == start && Stored(trace[|trace| - 1].view, start.processes[i].docs.corpus)
    ensures forall a :: Stored(trace[|trace| - 1].view, a) ==>
              Stored(start.view, a) || a in start.processes[i].docs.Script()
  {
    var q := start.processes[i].docs;
    steps, trace := SoloRun(start, i, |q.Script()|);
    assert q.Script()[..|q.Script()|] == q.Script();
    InsertedSnoc(start.view, q.members, q.corpus);
    forall a | Stored(trace[|trace| - 1].view, a) ensures Stored(start.view, a) || a in q.Script() {
      InsertedOrigin(start.view, q.Script(), a);
    }
  }

  /** A runnable call that does not cover `docs` publishes the document while a member is missing. */
  lemma UncoveringCallLeavesGap(start: State, i: nat, docs: Documents)
    requires AllWaiting(start) && i < |start.processes| && SameDocument(start.processes[i], docs)
    requires Runnable(start.view, start.processes[i].docs) && docs.corpus !in docs.members
    requires !Covers(start.view, start.processes[i].docs, docs)
    ensures !PresenceMeansStored(start, docs)
  {
    var q := start.processes[i].docs;
    var m :| m in docs.members && m !in q.members && !Stored(start.view, m);
    var steps, trace := PublishedAlone(start, i);
    var n: nat := |trace| - 1;
    assert !Stored(trace[n].view, m);
    ScriptMembers(docs, trace[n].view);
  }

  /** The artifacts of the calls and of one more load; among these a digest stands for one payload. */
  ghost predicate InPlay(ps: seq<Process>, docs: Documents, a: Artifact) {
    a in docs.Script() || exists p :: p in ps && a in p.docs.Script()
  }

  ghost predicate CollisionFree(ps: seq<Process>, docs: Documents) {
    forall a, b :: InPlay(ps, docs, a) && InPlay(ps, docs, b) && a.hash == b.hash ==> a.payload == b.payload
  }

  lemma PoolOfTwo(ps: seq<Process>, p: Process, docs: Documents)
    requires p in ps && CollisionFree(ps, docs)
    ensures HashesFixPayloads(p.docs.Script() + docs.Script())
    ensures AmongPool(p.docs.Script() + docs.Script(), p.docs) && AmongPool(p.docs.Script() + docs.Script(), docs)
  {
    var pool := p.docs.Script() + docs.Script();
    forall a, b | a in pool && b in pool && a.hash == b.hash ensures a.payload == b.payload {
      assert InPlay(ps, docs, a) && InPlay(ps, docs, b);
    }
  }

  /** The members of these documents that a call at level `a` does not store are in the store already. */
  ghost predicate Carries(r: Parser, v: View, a: Level, docs: Documents) {
    forall m :: m in docs.members ==> MemberKind(a, r.kind(m)) || Stored(v, m)
  }

  /** A load of this document that the document itself names, as its callers make it. */
  ghost predicate MatchingLoad(s: C.Scheme, r: Parser, level: Level, docs: Documents) {
    Matching(s, level) && Serializes(s, r, level, docs)
  }

  /** Which members an accepted call of the document brings along is a matter of its level alone. */
  lemma CallCoversExactly(
    s: C.Scheme, r: Parser, ps: seq<Process>, p: Process, level: Level, docs: Documents, v: View)
    requires p in ps && Legal(s, r, p) && SameDocument(p, docs)
    requires MatchingLoad(s, r, level, docs) && CollisionFree(ps, docs)
    ensures Covers(v, p.docs, docs) <==> Carries(r, v, p.level, docs)
  {
    PoolOfTwo(ps, p, docs);
    ValidMatches(s, p.level);
    forall m | m in docs.members ensures m in p.docs.members <==> MemberKind(p.level, r.kind(m)) {
      SharedByKind(s, r, p.docs.Script() + docs.Script(), p.level, p.docs, level, docs, m);
    }
  }

  /** A call whose level includes the load's level carries everything the load needs. */
  lemma IncludingCallCarries(r: Parser, v: View, a: Level, level: Level, docs: Documents)
    requires Includes(a, level) && Typed(r, level, docs)
    ensures Carries(r, v, a, docs)
  {
    MembersHaveKinds(r, level, docs);
  }

  /** A call of an unrelated level carries nothing: the store must hold every member already. */
  lemma OtherLevelCallCovers(s: C.Scheme, r: Parser, p: Process, level: Level, docs: Documents, v: View)
    requires Legal(s, r, p) && !Includes(p.level, level) && !Includes(level, p.level) && Serializes(s, r, level, docs)
    ensures Covers(v, p.docs, docs) <==> forall m :: m in docs.members ==> Stored(v, m)
  {
    LevelsShareNoMember(s, r, level, docs, p.level, p.docs);
  }

  lemma SameLevelCallCovers(
    s: C.Scheme, r: Parser, ps: seq<Process>, p: Process, level: Level, docs: Documents, v: View)
    requires p in ps && Legal(s, r, p) && SameDocument(p, docs) && Includes(p.level, level)
    requires MatchingLoad(s, r, level, docs) && CollisionFree(ps, docs)
    ensures Covers(v, p.docs, docs)
  {
    CallCoversExactly(s, r, ps, p, level, docs, v);
    IncludingCallCarries(r, v, p.level, level, docs);
  }

  // ----- what a load finds in a reachable store -----

  lemma StoreAgreesNext(s: State, step: Step, docs: Documents)
    requires Enabled(s, step) && CollisionFree(s.processes, docs) && StoreAgrees(s.view, docs)
    ensures StoreAgrees(Apply(s, step).view, docs)
  {
    var p := s.processes[step.i];
    var t := Apply(s, step);
    forall id, m | id in t.view && m in docs.members && t.view[id].hash == m.hash
      ensures t.view[id].payload == m.payload
    {
      MemberIsInPlay(s.processes, docs, m);
      if !(id in s.view && t.view[id] == s.view[id]) {
        assert p in s.processes && t.view[id] in p.docs.Script();
        assert InPlay(s.processes, docs, t.view[id]);
      }
    }
  }

  lemma MemberIsInPlay(ps: seq<Process>, docs: Documents, m: Artifact)
    requires m in docs.members
    ensures InPlay(ps, docs, m)
  {
    var k :| 0 <= k < |docs.members| && docs.members[k] == m;
    assert docs.Script()[k] == m;
  }

  lemma CollisionFreeStays(ps: seq<Process>, qs: seq<Process>, docs: Documents)
    requires SameCalls(ps, qs) && CollisionFree(ps, docs)
    ensures CollisionFree(qs, docs)
  {
    forall a, b | InPlay(qs, docs, a) && InPlay(qs, docs, b) && a.hash == b.hash ensures a.payload == b.payload {
      InPlayBefore(ps, qs, docs, a);
      InPlayBefore(ps, qs, docs, b);
    }
  }

  lemma InPlayBefore(ps: seq<Process>, qs: seq<Process>, docs: Documents, a: Artifact)
    requires SameCalls(ps, qs) && InPlay(qs, docs, a)
    ensures InPlay(ps, docs, a)
  {
    if a !in docs.Script() {
      var q :| q in qs && a in q.docs.Script();
      var i :| 0 <= i < |qs| && qs[i] == q;
      assert ps[i].docs == q.docs && ps[i] in ps;
    }
  }

  lemma {:induction false} StoreAgreesStays(steps: seq<Step>, trace: seq<State>, n: nat, docs: Documents)
    requires IsRun(steps, trace) && AllWaiting(trace[0]) && n < |trace|
    requires CollisionFree(trace[0].processes, docs) && StoreAgrees(trace[0].view, docs)
    ensures StoreAgrees(trace[n].view, docs)
    decreases n
  {
    if n > 0 {
      StoreAgreesStays(steps, trace, n - 1, docs);
      RunKeeps(steps, trace, 0, n - 1);
      CollisionFreeStays(trace[0].processes, trace[n - 1].processes, docs);
      assert StepAt(steps, trace, n - 1);
      StoreAgreesNext(trace[n - 1], steps[n - 1], docs);
    }
  }

  /** In every reachable store the load succeeds exactly if its documents are stored, and returns only their records. */
  lemma LoadsExactlyInRuns(
    s: C.Scheme, r: Parser, steps: seq<Step>, trace: seq<State>, n: nat, level: Level, docs: Documents)
    requires IsRun(steps, trace) && Initial(s, r, trace[0]) && n < |trace| && MatchingLoad(s, r, level, docs)
    requires CollisionFree(trace[0].processes, docs) && StoreAgrees(trace[0].view, docs)
    ensures Sized(level, docs) && (LoadSucceeds(trace[n].view, s, r, level, docs) <==> Loadable(trace[n].view, docs))
    ensures forall evidence ::
              LoadReturns(trace[n].view, s, r, level, docs, evidence) ==> evidence == PopulationOf(level)
  {
    InitialWaits(s, r, trace[0]);
    StoreAgreesStays(steps, trace, n, docs);
    LoadsExactlyTheStored(trace[n].view, s, r, level, docs);
  }

  /** Whenever the document is there, the load succeeds. */
  ghost predicate PresenceMeansLoad(s: C.Scheme, r: Parser, start: State, level: Level, docs: Documents)
    requires Sized(level, docs)
  {
    forall steps: seq<Step>, trace: seq<State>, n: nat ::
      IsRun(steps, trace) && trace[0] == start && n < |trace| && Stored(trace[n].view, docs.corpus) ==>
        LoadSucceeds(trace[n].view, s, r, level, docs)
  }

  lemma PresenceOfLoadIsPresenceOfDocuments(
    s: C.Scheme, r: Parser, start: State, level: Level, docs: Documents)
    requires Initial(s, r, start) && MatchingLoad(s, r, level, docs)
    requires CollisionFree(start.processes, docs) && StoreAgrees(start.view, docs)
    ensures Sized(level, docs) && (PresenceMeansLoad(s, r, start, level, docs) <==> PresenceMeansStored(start, docs))
  {
    assert Sized(level, docs);
    forall steps: seq<Step>, trace: seq<State>, n: nat | IsRun(steps, trace) && trace[0] == start && n < |trace|
      ensures LoadSucceeds(trace[n].view, s, r, level, docs) <==> Loadable(trace[n].view, docs)
    {
      LoadsExactlyInRuns(s, r, steps, trace, n, level, docs);
    }
  }

  /** A runnable call that does not cover the load publishes the document while the load fails. */
  lemma UncoveringCallBreaksLoad(s: C.Scheme, r: Parser, start: State, i: nat, level: Level, docs: Documents)
    requires Initial(s, r, start) && MatchingLoad(s, r, level, docs)
    requires CollisionFree(start.processes, docs) && StoreAgrees(start.view, docs)
    requires i < |start.processes| && SameDocument(start.processes[i], docs)
    requires Runnable(start.view, start.processes[i].docs) && !Covers(start.view, start.processes[i].docs, docs)
    ensures Sized(level, docs) && !PresenceMeansLoad(s, r, start, level, docs)
  {
    InitialWaits(s, r, start);
    SerializedIsKinded(s, r, level, docs);
    UncoveringCallLeavesGap(start, i, docs);
    PresenceOfLoadIsPresenceOfDocuments(s, r, start, level, docs);
  }

  /** Every accepted call of this document publishes it at a level that includes the load's. */
  ghost predicate PublishedAtLevel(ps: seq<Process>, level: Level, docs: Documents) {
    forall p :: p in ps && SameDocument(p, docs) ==> Includes(p.level, level)
  }

  /**
  If the document is only ever published at a level that includes the load's, then in any interleaving
  its presence means that the matching load succeeds, with the evidence the load's records stand for.
  */
  lemma PresenceMeansMatchingLoad(
    s: C.Scheme, r: Parser, steps: seq<Step>, trace: seq<State>, n: nat, level: Level, docs: Documents)
    requires IsRun(steps, trace) && Initial(s, r, trace[0]) && n < |trace|
    requires MatchingLoad(s, r, level, docs) && CollisionFree(trace[0].processes, docs)
    requires !Stored(trace[0].view, docs.corpus) && PublishedAtLevel(trace[0].processes, level, docs)
    requires Stored(trace[n].view, docs.corpus)
    ensures Loadable(trace[n].view, docs) && Sized(level, docs)
    ensures LoadReturns(trace[n].view, s, r, level, docs, PopulationOf(level))
  {
    InitialWaits(s, r, trace[0]);
    CorpusIsNoMember(s, r, trace[0].processes, docs.corpus);
    forall p | p in trace[0].processes && SameDocument(p, docs) ensures Covers(trace[0].view, p.docs, docs) {
      SameLevelCallCovers(s, r, trace[0].processes, p, level, docs, trace[0].view);
    }
    CoveringCallsSuffice(steps, trace, n, docs);
    LoadableLoads(trace[n].view, s, r, level, docs);
  }

  /** Every accepted call of this document carries the load. */
  ghost predicate AllCarry(r: Parser, start: State, docs: Documents) {
    forall p :: p in start.processes && SameDocument(p, docs) ==> Carries(r, start.view, p.level, docs)
  }

  /**
  The exact condition, over the levels of the calls and the store before them: presence of the
  document means in every run that the matching load succeeds if and only if every member of the load
  is of a kind that each accepted call of the document stores, or is in the store from the start.
  */
  lemma MatchingLoadExactly(s: C.Scheme, r: Parser, start: State, level: Level, docs: Documents)
    requires Initial(s, r, start) && MatchingLoad(s, r, level, docs)
    requires CollisionFree(start.processes, docs) && StoreAgrees(start.view, docs)
    requires !Stored(start.view, docs.corpus)
    requires forall p :: p in start.processes && SameDocument(p, docs) && !Carries(r, start.view, p.level, docs) ==>
               Runnable(start.view, p.docs)
    ensures Sized(level, docs) && (PresenceMeansLoad(s, r, start, level, docs) <==> AllCarry(r, start, docs))
  {
    PresenceOfLoadIsPresenceOfDocuments(s, r, start, level, docs);
    if AllCarry(r, start, docs) {
      CarriedStartLoads(s, r, start, level, docs);
    } else {
      var p :| p in start.processes && SameDocument(p, docs) && !Carries(r, start.view, p.level, docs);
      OtherLevelBreaksLoad(s, r, start, p, level, docs);
    }
  }

  lemma OtherLevelBreaksLoad(s: C.Scheme, r: Parser, start: State, p: Process, level: Level, docs: Documents)
    requires Initial(s, r, start) && MatchingLoad(s, r, level, docs)
    requires CollisionFree(start.processes, docs) && StoreAgrees(start.view, docs)
    requires p in start.processes && SameDocument(p, docs) && Runnable(start.view, p.docs)
    requires !Carries(r, start.view, p.level, docs)
    ensures Sized(level, docs) && !PresenceMeansLoad(s, r, start, level, docs)
  {
    var i :| 0 <= i < |start.processes| && start.processes[i] == p;
    assert Legal(s, r, start.processes[i]);
    CallCoversExactly(s, r, start.processes, p, level, docs, start.view);
    UncoveringCallBreaksLoad(s, r, start, i, level, docs);
  }

  lemma CarriedStartLoads(s: C.Scheme, r: Parser, start: State, level: Level, docs: Documents)
    requires Initial(s, r, start) && MatchingLoad(s, r, level, docs) && CollisionFree(start.processes, docs)
    requires !Stored(start.view, docs.corpus) && AllCarry(r, start, docs)
    ensures PresenceMeansStored(start, docs)
  {
    InitialWaits(s, r, start);
    CorpusIsNoMember(s, r, start.processes, docs.corpus);
    forall p | p in start.processes && SameDocument(p, docs) ensures Covers(start.view, p.docs, docs) {
      CallCoversExactly(s, r, start.processes, p, level, docs, start.view);
    }
    forall steps: seq<Step>, trace: seq<State>, n: nat
      | IsRun(steps, trace) && trace[0] == start && n < |trace| && Stored(trace[n].view, docs.corpus)
      ensures Loadable(trace[n].view, docs)
    {
      CoveringCallsSuffice(steps, trace, n, docs);
    }
  }

  /** Without any assumption on digests: a missing snapshot makes the load fail. */
  lemma MissingSnapshotFails(v: View, s: C.Scheme, r: Parser, level: Level, docs: Documents, a: Artifact)
    requires Sized(level, docs) && a in Snapshots(level, docs) && !Stored(v, a)
    ensures !LoadSucceeds(v, s, r, level, docs)
  {
    var k :| 0 <= k < |Snapshots(level, docs)| && Snapshots(level, docs)[k] == a;
  }

  /** A call in a run is the legal call it started as, and a published one was accepted and left its document. */
  lemma CallInRun(s: C.Scheme, r: Parser, steps: seq<Step>, trace: seq<State>, n: nat, i: nat)
    requires IsRun(steps, trace) && Initial(s, r, trace[0]) && n < |trace| && i < |trace[n].processes|
    ensures i < |trace[0].processes| && trace[0].processes[i] in trace[0].processes
    ensures trace[0].processes[i].docs == trace[n].processes[i].docs && Legal(s, r, trace[n].processes[i])
    ensures trace[n].processes[i].phase == Published ==>
              trace[n].processes[i].accepted && Stored(trace[n].view, trace[n].processes[i].docs.corpus)
  {
    InitialWaits(s, r, trace[0]);
    RunKeeps(steps, trace, 0, n);
    LegalStays(s, r, trace[0].processes, trace[n].processes);
    assert ProcessInv(trace[n], trace[n].processes[i]);
    ScriptMembers(trace[n].processes[i].docs, trace[n].view);
  }

  /**
  A document published one level up, over a predecessor published at the load's level, also loads:
  the chain behind it holds the members, and the persist guards make them the ones it names.
  */
  lemma UpperPublicationAlsoLoads(
    s: C.Scheme, r: Parser, steps: seq<Step>, trace: seq<State>, n: nat, i: nat, j: nat, inner: Level, docs: Documents)
    requires IsRun(steps, trace) && Initial(s, r, trace[0]) && n < |trace|
    requires i < |trace[n].processes| && j < |trace[n].processes|
    requires trace[n].processes[i].phase == Published && trace[n].processes[j].accepted
    requires Loadable(trace[n].view, trace[n].processes[j].docs)
    requires trace[n].processes[j].docs.corpus == trace[n].processes[i].docs.predecessor
    requires var upper, lower := trace[n].processes[i].level, trace[n].processes[j].level;
             (lower.Checkpoints? && upper.Witnesses?) || (lower.Revocations? && upper.Checkpoints?)
    requires MatchingLoad(s, r, inner, docs) && SameLevel(inner, trace[n].processes[j].level)
    requires docs.corpus == trace[n].processes[i].docs.corpus && CollisionFree(trace[0].processes, docs)
    ensures Loadable(trace[n].view, docs) && Sized(inner, docs)
    ensures LoadReturns(trace[n].view, s, r, inner, docs, PopulationOf(inner))
  {
    CallInRun(s, r, steps, trace, n, i);
    CallInRun(s, r, steps, trace, n, j);
    var upper, lower := trace[n].processes[i], trace[n].processes[j];
    PoolOfTwo(trace[0].processes, trace[0].processes[j], docs);
    UpperDocumentLoadsOneLevelDown(
      s, r, trace[n].view, lower.docs.Script() + docs.Script(), lower.level, lower.docs,
      upper.level, upper.docs, inner, docs);
  }
}
