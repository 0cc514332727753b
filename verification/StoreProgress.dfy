/**
When a concurrent append is refused, and that nothing else keeps it from succeeding.

The other lemmas of the protocol say what cannot go wrong; these say what must go right.
*/
module StoreProgress {
  import opened Artifacts
  import opened StoreProtocol

  predicate Comparing(step: Step) {
    step.CompareBlob? || step.CompareIndex?
  }

  /** The file this step compares its artifact with holds something else. */
  predicate Differs(w: World, s: State, step: Step)
    requires Enabled(w, s, step) && Comparing(step)
  {
    var a := s.writers[step.p].artifact;
    if step.CompareBlob? then s.blobs[a.hash].content != a.payload
    else w.codec.decode(s.index[w.h.key(a.id)].content) != Some(a.Reference())
  }

  /** Blob before index before both checks; only a comparison has a way out. */
  predicate InOrder(before: Stage, after: Stage) {
    match before
    case CreatingBlob => after in {WritingBlob, ComparingBlob}
    case WritingBlob => after in {WritingBlob, CreatingIndex}
    case ComparingBlob => after in {CreatingIndex, Refused}
    case CreatingIndex => after in {WritingIndex, ComparingIndex}
    case WritingIndex => after in {WritingIndex, CheckingIndex}
    case ComparingIndex => after in {CheckingIndex, Refused}
    case CheckingIndex => after == CheckingBlob
    case CheckingBlob => after == Succeeded
    case _ => false
  }

  /**
  A step refuses its writer exactly if it compares and finds something else, otherwise takes it to
  the next stage, and leaves every other writer where it was.  The final checks refuse nobody.
  */
  lemma RefusesExactly(w: World, s: State, step: Step)
    requires Sound(w) && Inv(w, s) && Enabled(w, s, step) && !step.Begin?
    ensures var t := Apply(w, s, step);
            && |t.writers| == |s.writers|
            && (t.writers[step.p].stage == Refused <==> Comparing(step) && Differs(w, s, step))
            && (t.writers[step.p].stage == Crashed <==> step.Crash?)
            && (!step.Crash? ==> InOrder(s.writers[step.p].stage, t.writers[step.p].stage))
            && (forall q :: 0 <= q < |s.writers| && q != step.p ==> t.writers[q] == s.writers[q])
  {
    if PastIndex(s.writers[step.p].stage) {
      ChecksNeverFail(w, s, step.p);
    }
    StageAfterStep(w, s, step);
  }

  /** The final reads of `p` find what it wrote. */
  predicate ChecksPass(w: World, s: State, p: nat)
    requires p < |s.writers|
  {
    PastIndex(s.writers[p].stage) ==>
      var a := s.writers[p].artifact;
      ReadIndex(w, s, a.id) == Some(a.Reference()) && ReadBlob(w, s, a.hash) == Some(a.payload)
  }

  lemma StageAfterStep(w: World, s: State, step: Step)
    requires Enabled(w, s, step) && !step.Begin? && ChecksPass(w, s, step.p)
    ensures var t := Apply(w, s, step);
            && |t.writers| == |s.writers|
            && (t.writers[step.p].stage == Refused <==> Comparing(step) && Differs(w, s, step))
            && (t.writers[step.p].stage == Crashed <==> step.Crash?)
            && (!step.Crash? ==> InOrder(s.writers[step.p].stage, t.writers[step.p].stage))
            && (forall q :: 0 <= q < |s.writers| && q != step.p ==> t.writers[q] == s.writers[q])
  {
  }

  /** The file was never completed, or not yet: its creator is still writing or has crashed. */
  predicate Incomplete(s: State, f: File, whole: Bytes) {
    && f.owner < |s.writers| && s.writers[f.owner].stage in {WritingBlob, WritingIndex, Crashed}
    && |f.content| < |whole| && f.content == whole[..|f.content|]
  }

  /**
  What a refused append ran into, in any interleaving: an incomplete copy of its own payload, an
  incomplete index record of whoever came first, or the complete record of another reference.
  */
  lemma RefusalHasACause(w: World, s: State, step: Step)
    requires Sound(w) && Inv(w, s) && Enabled(w, s, step) && !step.Begin?
    requires Apply(w, s, step).writers[step.p].stage == Refused
    ensures Comparing(step)
    ensures var a := s.writers[step.p].artifact;
            if step.CompareBlob? then Incomplete(s, s.blobs[a.hash], a.payload)
            else
              var f := s.index[w.h.key(a.id)];
              && f.owner < |s.writers|
              && var other := s.writers[f.owner].artifact;
                 || Incomplete(s, f, Record(w, other))
                 || (f.content == Record(w, other) && other.Reference() != a.Reference())
  {
    RefusesExactly(w, s, step);
    var a := s.writers[step.p].artifact;
    if step.CompareBlob? {
      var f := s.blobs[a.hash];
      assert BlobFileInv(s, a.hash, f);
      SameDigestSamePayload(w, s, step.p, f.owner);
    } else {
      var k := w.h.key(a.id);
      assert IndexFileInv(w, s, k, s.index[k]);
    }
  }

  // ----- a writer left alone -----

  /** No other content stands where the blob has to go. */
  predicate BlobClear(s: State, a: Artifact) {
    a.hash in s.blobs ==> s.blobs[a.hash].content == a.payload
  }

  /** No other record stands where the index entry has to go. */
  predicate IndexClear(w: World, s: State, a: Artifact) {
    w.h.key(a.id) in s.index ==> w.codec.decode(s.index[w.h.key(a.id)].content) == Some(a.Reference())
  }

  /** What writer `p` still has to get past holds nothing but its own artifact. */
  predicate Clear(w: World, s: State, p: nat)
    requires p < |s.writers|
  {
    var a := s.writers[p].artifact;
    match s.writers[p].stage
    case CreatingBlob => BlobClear(s, a) && IndexClear(w, s, a)
    case ComparingBlob => BlobClear(s, a) && IndexClear(w, s, a)
    case WritingBlob => IndexClear(w, s, a)
    case CreatingIndex => IndexClear(w, s, a)
    case ComparingIndex => IndexClear(w, s, a)
    case WritingIndex => true
    case CheckingIndex => true
    case CheckingBlob => true
    case Succeeded => true
    case Refused => false
    case Crashed => false
  }

  /** Steps by writer `p` alone, none of them a crash. */
  ghost predicate Alone(w: World, s: State, p: nat, steps: seq<Step>, trace: seq<State>) {
    && |trace| == |steps| + 1 && trace[0] == s
    && (forall i :: 0 <= i < |steps| ==> StepAt(w, steps, trace, i))
    && (forall i :: 0 <= i < |steps| ==> OwnStep(steps[i], p))
  }

  predicate OwnStep(step: Step, p: nat) {
    !step.Begin? && !step.Crash? && step.p == p
  }

  lemma ClearAfterStep(w: World, s: State, step: Step, p: nat)
    requires Enabled(w, s, step) && OwnStep(step, p) && p < |s.writers| && ChecksPass(w, s, p)
    ensures var t := Apply(w, s, step);
            && |t.writers| == |s.writers| && t.writers[p].artifact == s.writers[p].artifact
            && (Clear(w, t, p) <==> Clear(w, s, p))
  {
  }

  /** A writer's own step neither clears its way nor blocks it. */
  lemma OwnStepKeepsClear(w: World, s: State, step: Step, p: nat)
    requires Sound(w) && Inv(w, s) && Enabled(w, s, step) && OwnStep(step, p)
    ensures var t := Apply(w, s, step);
            && p < |s.writers| == |t.writers| && t.writers[p].artifact == s.writers[p].artifact
            && (Clear(w, t, p) <==> Clear(w, s, p))
  {
    if PastIndex(s.writers[p].stage) {
      ChecksNeverFail(w, s, p);
    }
    ClearAfterStep(w, s, step, p);
  }

  /** What a writer's own steps leave as it was. */
  predicate Since(w: World, s: State, t: State, p: nat) {
    && p < |s.writers| == |t.writers| && t.writers[p].artifact == s.writers[p].artifact
    && (Clear(w, t, p) <==> Clear(w, s, p))
    && (t.writers[p].stage == Crashed ==> s.writers[p].stage == Crashed)
    && (forall q :: 0 <= q < |s.writers| && q != p ==> t.writers[q] == s.writers[q])
  }

  lemma OwnStepSince(w: World, s: State, step: Step, p: nat)
    requires Sound(w) && Inv(w, s) && Enabled(w, s, step) && OwnStep(step, p)
    ensures Since(w, s, Apply(w, s, step), p)
  {
    OwnStepKeepsClear(w, s, step, p);
    RefusesExactly(w, s, step);
  }

  lemma SinceTransitive(w: World, s: State, t: State, u: State, p: nat)
    requires Since(w, s, t, p) && Since(w, t, u, p)
    ensures Since(w, s, u, p)
  {
  }

  lemma {:induction false} AloneKeeps(
    w: World, s: State, p: nat, steps: seq<Step>, trace: seq<State>, n: nat)
    requires Sound(w) && Inv(w, s) && p < |s.writers| && Alone(w, s, p, steps, trace) && n < |trace|
    ensures Inv(w, trace[n]) && Since(w, s, trace[n], p)
  {
    if n > 0 {
      AloneKeeps(w, s, p, steps, trace, n - 1);
      assert StepAt(w, steps, trace, n - 1) && OwnStep(steps[n - 1], p);
      StepKeeps(w, trace[n - 1], steps[n - 1]);
      OwnStepSince(w, trace[n - 1], steps[n - 1], p);
      SinceTransitive(w, s, trace[n - 1], trace[n], p);
    }
  }

  /**
  However a writer left alone goes on, it ends in success exactly if no other content stood in its
  way when the others stopped, and is refused exactly if some did; nobody else is moved.
  */
  lemma AloneSucceedsExactly(w: World, s: State, p: nat, steps: seq<Step>, trace: seq<State>, n: nat)
    requires Sound(w) && Inv(w, s) && p < |s.writers| && s.writers[p].stage != Crashed
    requires Alone(w, s, p, steps, trace) && n < |trace|
    ensures |trace[n].writers| == |s.writers| && (trace[n].writers[p].stage == Succeeded ==> Clear(w, s, p))
    ensures Finished(trace[n].writers[p].stage) ==>
              trace[n].writers[p].stage == if Clear(w, s, p) then Succeeded else Refused
    ensures forall q :: 0 <= q < |s.writers| && q != p ==> trace[n].writers[q] == s.writers[q]
  {
    AloneKeeps(w, s, p, steps, trace, n);
  }

  /** What a writer does next if nothing stops it. */
  function Next(w: World, s: State, p: nat): Step
    requires p < |s.writers| && !Finished(s.writers[p].stage)
  {
    var a := s.writers[p].artifact;
    match s.writers[p].stage
    case CreatingBlob => CreateBlob(p)
    case WritingBlob =>
      if a.hash in s.blobs && |s.blobs[a.hash].content| == |a.payload| then CloseBlob(p) else WriteBlob(p, |a.payload|)
    case ComparingBlob => CompareBlob(p)
    case CreatingIndex => CreateIndex(p)
    case WritingIndex =>
      var k := w.h.key(a.id);
      if k in s.index && |s.index[k].content| == |Record(w, a)| then CloseIndex(p) else WriteIndex(p, |Record(w, a)|)
    case ComparingIndex => CompareIndex(p)
    case CheckingIndex => CheckIndex(p)
    case CheckingBlob => CheckBlob(p)
  }

  /** How many steps a writer is from its end, at most. */
  function Distance(w: World, s: State, p: nat): nat
    requires p < |s.writers|
  {
    var a := s.writers[p].artifact;
    match s.writers[p].stage
    case CreatingBlob => 9
    case WritingBlob => if a.hash in s.blobs && |s.blobs[a.hash].content| == |a.payload| then 7 else 8
    case ComparingBlob => 7
    case CreatingIndex => 6
    case WritingIndex =>
      if w.h.key(a.id) in s.index && |s.index[w.h.key(a.id)].content| == |Record(w, a)| then 3 else 4
    case ComparingIndex => 3
    case CheckingIndex => 2
    case CheckingBlob => 1
    case Succeeded => 0
    case Refused => 0
    case Crashed => 0
  }

  /** The files `p` is writing are no longer than they have to be, and what it compares with exists. */
  predicate FilesFit(w: World, s: State, p: nat)
    requires p < |s.writers|
  {
    var a := s.writers[p].artifact;
    var k := w.h.key(a.id);
    match s.writers[p].stage
    case WritingBlob => a.hash in s.blobs && |s.blobs[a.hash].content| <= |a.payload|
    case ComparingBlob => a.hash in s.blobs
    case WritingIndex => k in s.index && |s.index[k].content| <= |Record(w, a)|
    case ComparingIndex => k in s.index
    case _ => true
  }

  lemma OwnFilesFit(w: World, s: State, p: nat)
    requires Inv(w, s) && p < |s.writers|
    ensures FilesFit(w, s, p)
  {
    var a := s.writers[p].artifact;
    assert WriterInv(w, s, p);
    if s.writers[p].stage == WritingBlob {
      assert BlobFileInv(s, a.hash, s.blobs[a.hash]);
    }
    if s.writers[p].stage == WritingIndex {
      assert IndexFileInv(w, s, w.h.key(a.id), s.index[w.h.key(a.id)]);
    }
  }

  /** No unfinished writer ever has to wait for another. */
  lemma NextIsEnabled(w: World, s: State, p: nat)
    requires p < |s.writers| && FilesFit(w, s, p) && !Finished(s.writers[p].stage)
    ensures var step := Next(w, s, p);
            && Enabled(w, s, step) && OwnStep(step, p)
            && |Apply(w, s, step).writers| == |s.writers|
            && Distance(w, Apply(w, s, step), p) < Distance(w, s, p)
  {
  }

  ghost predicate AloneToEnd(w: World, s: State, p: nat, steps: seq<Step>, trace: seq<State>) {
    && Alone(w, s, p, steps, trace)
    && p < |trace[|steps|].writers| && Finished(trace[|steps|].writers[p].stage)
  }

  lemma StepBefore(w: World, s: State, p: nat, step: Step, t: State, steps: seq<Step>, trace: seq<State>)
    requires Enabled(w, s, step) && OwnStep(step, p) && t == Apply(w, s, step) && AloneToEnd(w, t, p, steps, trace)
    ensures AloneToEnd(w, s, p, [step] + steps, [s] + trace)
  {
    forall i | 0 <= i < |steps| + 1 ensures StepAt(w, [step] + steps, [s] + trace, i) {
      assert i > 0 ==> StepAt(w, steps, trace, i - 1);
    }
    forall i | 0 <= i < |steps| + 1 ensures OwnStep(([step] + steps)[i], p) {
      assert i > 0 ==> OwnStep(steps[i - 1], p);
    }
  }

  /** The next step keeps the invariant, comes closer to the end, and goes before whatever leads there. */
  lemma NextLeadsOn(w: World, s: State, p: nat) returns (step: Step, t: State)
    requires Sound(w) && Inv(w, s) && p < |s.writers| && !Finished(s.writers[p].stage)
    ensures Inv(w, t) && |t.writers| == |s.writers| && Distance(w, t, p) < Distance(w, s, p)
    ensures forall steps, trace ::
              AloneToEnd(w, t, p, steps, trace) ==> AloneToEnd(w, s, p, [step] + steps, [s] + trace)
  {
    OwnFilesFit(w, s, p);
    NextIsEnabled(w, s, p);
    step := Next(w, s, p);
    StepKeeps(w, s, step);
    t := Apply(w, s, step);
    forall steps, trace | AloneToEnd(w, t, p, steps, trace)
      ensures AloneToEnd(w, s, p, [step] + steps, [s] + trace)
    {
      StepBefore(w, s, p, step, t, steps, trace);
    }
  }

  /** From any state a writer can go on by itself to its end, in at most nine steps. */
  lemma {:induction false} AloneFinishes(w: World, s: State, p: nat) returns (steps: seq<Step>, trace: seq<State>)
    requires Sound(w) && Inv(w, s) && p < |s.writers|
    ensures AloneToEnd(w, s, p, steps, trace) && |steps| <= Distance(w, s, p) <= 9
    decreases Distance(w, s, p)
  {
    if Finished(s.writers[p].stage) {
      return [], [s];
    }
    var step, t := NextLeadsOn(w, s, p);
    var later, on := AloneFinishes(w, t, p);
    steps, trace := [step] + later, [s] + on;
  }

  // ----- identical repeats -----

  /** Blob and record of this artifact are in place. */
  predicate InPlace(w: World, s: State, a: Artifact) {
    && a.hash in s.blobs && s.blobs[a.hash].content == a.payload
    && w.h.key(a.id) in s.index && w.codec.decode(s.index[w.h.key(a.id)].content) == Some(a.Reference())
  }

  /** A repeat compares, checks and writes nothing. */
  lemma RepeatStep(w: World, s: State, p: nat, step: Step)
    requires Enabled(w, s, step) && OwnStep(step, p) && p < |s.writers| && InPlace(w, s, s.writers[p].artifact)
    requires s.writers[p].stage !in {WritingBlob, WritingIndex}
    ensures var t := Apply(w, s, step);
            && t.blobs == s.blobs && t.index == s.index && p < |t.writers|
            && t.writers[p].artifact == s.writers[p].artifact && t.writers[p].stage !in {WritingBlob, WritingIndex}
  {
  }

  lemma {:induction false} RepeatKeeps(w: World, s: State, p: nat, steps: seq<Step>, trace: seq<State>, n: nat)
    requires p < |s.writers| && InPlace(w, s, s.writers[p].artifact) && s.writers[p].stage == CreatingBlob
    requires Alone(w, s, p, steps, trace) && n < |trace|
    ensures trace[n].blobs == s.blobs && trace[n].index == s.index && p < |trace[n].writers|
    ensures trace[n].writers[p].artifact == s.writers[p].artifact
    ensures trace[n].writers[p].stage !in {WritingBlob, WritingIndex}
  {
    if n > 0 {
      RepeatKeeps(w, s, p, steps, trace, n - 1);
      assert StepAt(w, steps, trace, n - 1) && OwnStep(steps[n - 1], p);
      RepeatStep(w, trace[n - 1], p, steps[n - 1]);
    }
  }

  /** The store once one more append of `a` has begun. */
  function Begun(w: World, s: State, a: Artifact): State {
    s.(writers := s.writers + [Writer(a, CreatingBlob)])
  }

  /**
  Identical repeats are idempotent where they run alone: an append of what a lookup returns, however
  many appends were abandoned around it, never writes, never is refused, and can finish.
  */
  lemma RepeatSucceedsAlone(w: World, s: State, a: Artifact, steps: seq<Step>, trace: seq<State>, n: nat)
    requires Sound(w) && Inv(w, s) && a in w.pool && SplitGet(w, s, s, a.id) == Some(a)
    requires Alone(w, Begun(w, s, a), |s.writers|, steps, trace) && n < |trace|
    ensures Enabled(w, s, Begin(a)) && Apply(w, s, Begin(a)) == Begun(w, s, a)
    ensures trace[n].blobs == s.blobs && trace[n].index == s.index && |s.writers| < |trace[n].writers|
    ensures Finished(trace[n].writers[|s.writers|].stage) ==> trace[n].writers[|s.writers|].stage == Succeeded
    ensures exists more: seq<Step>, on: seq<State> ::
              && Alone(w, Begun(w, s, a), |s.writers|, more, on) && |s.writers| < |on[|more|].writers|
              && on[|more|].writers[|s.writers|].stage == Succeeded
  {
    var t, p := Begun(w, s, a), |s.writers|;
    assert InPlace(w, s, a);
    StepKeeps(w, s, Begin(a));
    RepeatKeeps(w, t, p, steps, trace, n);
    AloneSucceedsExactly(w, t, p, steps, trace, n);
    var more, on := AloneFinishes(w, t, p);
    AloneSucceedsExactly(w, t, p, more, on, |more|);
  }
}
