/**
One append counts as one step.

A whole run of the store protocol, with files written byte by byte and crashes anywhere, is seen
through lookups a run of atomic insertions: every state's lookups are those of one state of an
interleaving of appends, in order, and a protocol step makes at most one insertion.
*/
module StoreProjection {
  import opened Artifacts
  import opened ArtifactStore
  import opened AppendScript
  import S = StoreProtocol
  import I = Interleaving

  function Found(w: S.World, s: S.State, id: string): Option<Artifact> {
    S.SplitGet(w, s, s, id)
  }

  /** Everything that can be looked up in this state. */
  ghost function Lookups(w: S.World, s: S.State): View {
    map id | id in (set a | a in w.pool :: a.id) && Found(w, s, id).Some? :: Found(w, s, id).value
  }

  lemma LookupsAreExact(w: S.World, s: S.State, id: string)
    requires S.Sound(w) && S.Inv(w, s)
    ensures id in Lookups(w, s) <==> Found(w, s, id).Some?
    ensures id in Lookups(w, s) ==> Some(Lookups(w, s)[id]) == Found(w, s, id)
  {
    if Found(w, s, id).Some? {
      S.GrowsReflexive(s);
      S.LookupIsStable(w, s, s, id);
      var p :| 0 <= p < |s.writers| && S.SplitGet(w, s, s, id) == Some(s.writers[p].artifact);
      assert S.WriterInv(w, s, p);
    }
  }

  lemma SameLookups(w: S.World, s: S.State, t: S.State)
    requires S.Sound(w) && S.Inv(w, s) && S.Inv(w, t) && forall id :: Found(w, t, id) == Found(w, s, id)
    ensures Lookups(w, t) == Lookups(w, s)
  {
    forall id ensures (id in Lookups(w, t) <==> id in Lookups(w, s))
                      && (id in Lookups(w, t) ==> Lookups(w, t)[id] == Lookups(w, s)[id])
    {
      LookupsAreExact(w, s, id);
      LookupsAreExact(w, t, id);
    }
  }

  lemma OneMoreLookupAt(w: S.World, s: S.State, t: S.State, a: Artifact, id: string)
    requires S.Sound(w) && S.Inv(w, s) && S.Inv(w, t)
    requires id != a.id ==> Found(w, t, id) == Found(w, s, id)
    requires id == a.id ==> Found(w, t, id) == Some(a)
    ensures id in Lookups(w, t) <==> id == a.id || id in Lookups(w, s)
    ensures id in Lookups(w, t) ==> Lookups(w, t)[id] == if id == a.id then a else Lookups(w, s)[id]
  {
    LookupsAreExact(w, s, id);
    LookupsAreExact(w, t, id);
  }

  lemma OneMoreBinding(u: View, v: View, a: Artifact)
    requires forall id :: id in v <==> id == a.id || id in u
    requires forall id :: id in v ==> v[id] == if id == a.id then a else u[id]
    ensures v == u[a.id := a]
  {
  }

  lemma OneMoreLookup(w: S.World, s: S.State, t: S.State, a: Artifact)
    requires S.Sound(w) && S.Inv(w, s) && S.Inv(w, t)
    requires forall id :: id != a.id ==> Found(w, t, id) == Found(w, s, id)
    requires Found(w, s, a.id).None? && Found(w, t, a.id) == Some(a)
    ensures a.id !in Lookups(w, s) && Lookups(w, t) == Lookups(w, s)[a.id := a]
  {
    LookupsAreExact(w, s, a.id);
    var u, v := Lookups(w, s), Lookups(w, t);
    forall id ensures (id in v <==> id == a.id || id in u) && (id in v ==> v[id] == if id == a.id then a else u[id]) {
      OneMoreLookupAt(w, s, t, a, id);
    }
    OneMoreBinding(u, v, a);
  }

  /** Each writer appends its one artifact. */
  ghost function Scripts(s: S.State): (scripts: seq<seq<Artifact>>)
    ensures |scripts| == |s.writers|
    ensures forall p :: 0 <= p < |scripts| ==> scripts[p] == [s.writers[p].artifact]
  {
    seq(|s.writers|, p requires 0 <= p < |s.writers| => [s.writers[p].artifact])
  }

  /** Through lookups, a step does nothing or inserts the artifact of its writer under a fresh ID. */
  lemma StepInsertsAtMostOnce(w: S.World, s: S.State, step: S.Step)
    requires S.Sound(w) && S.Inv(w, s) && S.Enabled(w, s, step)
    ensures var t := S.Apply(w, s, step);
            || Lookups(w, t) == Lookups(w, s)
            || (&& step.WriteIndex? && step.p < |s.writers|
                && var a := s.writers[step.p].artifact;
                   a.id !in Lookups(w, s) && Lookups(w, t) == Lookups(w, s)[a.id := a])
  {
    var t := S.Apply(w, s, step);
    S.StepKeeps(w, s, step);
    S.StepRefinesInsertion(w, s, step);
    if id :| Found(w, t, id) != Found(w, s, id) {
      OneMoreLookup(w, s, t, s.writers[step.p].artifact);
    } else {
      SameLookups(w, s, t);
    }
  }

  /** The states of the interleaving that the states of the run are seen as. */
  ghost predicate Follows(
    w: S.World, trace: seq<S.State>, n: nat, states: seq<I.State>, at: seq<nat>)
  {
    && n < |trace| && |at| == n + 1 && at[0] == 0
    && (forall m :: 0 <= m <= n ==> at[m] < |states| && states[at[m]].view == Lookups(w, trace[m]))
    && (forall m :: 0 <= m < n ==> at[m + 1] == at[m] || at[m + 1] == at[m] + 1)
    && at[n] == |states| - 1
  }

  lemma InsertionGoesOn(scripts: seq<seq<Artifact>>, schedule: seq<nat>, states: seq<I.State>, p: nat)
    requires I.IsRun(scripts, schedule, states) && I.CanStep(scripts, states[|schedule|], p)
    ensures I.IsRun(scripts, schedule + [p], states + [I.Next(scripts, states[|schedule|], p)])
  {
    var longer, next := schedule + [p], states + [I.Next(scripts, states[|schedule|], p)];
    forall n | 0 <= n < |longer|
      ensures I.CanStep(scripts, next[n], longer[n]) && next[n + 1] == I.Next(scripts, next[n], longer[n])
    {
      assert n < |schedule| ==> I.CanStep(scripts, states[n], schedule[n]);
    }
  }

  /** A writer whose ID nobody can look up has not inserted yet. */
  lemma FreshWriterCanInsert(scripts: seq<seq<Artifact>>, schedule: seq<nat>, states: seq<I.State>, p: nat, a: Artifact)
    requires I.IsRun(scripts, schedule, states) && p < |scripts| && scripts[p] == [a]
    requires a.id !in states[|schedule|].view
    ensures I.CanStep(scripts, states[|schedule|], p)
    ensures I.Next(scripts, states[|schedule|], p).view == states[|schedule|].view[a.id := a]
  {
    var last := states[|schedule|];
    I.RunKeeps(scripts, schedule, states, |schedule|);
    assert I.Reached(scripts, last, p, 0) ==> Stored(last.view, scripts[p][0]);
  }

  lemma FollowsStill(w: S.World, trace: seq<S.State>, n: nat, states: seq<I.State>, at: seq<nat>)
    requires 0 < n < |trace| && Follows(w, trace, n - 1, states, at) && Lookups(w, trace[n]) == Lookups(w, trace[n - 1])
    ensures Follows(w, trace, n, states, at + [at[n - 1]])
  {
  }

  lemma FollowsNext(
    w: S.World, trace: seq<S.State>, n: nat, states: seq<I.State>, at: seq<nat>, next: I.State)
    requires 0 < n < |trace| && Follows(w, trace, n - 1, states, at) && Lookups(w, trace[n]) == next.view
    ensures Follows(w, trace, n, states + [next], at + [at[n - 1] + 1])
  {
  }

  /** The writer of a step appends the same artifact as in the scripts of the whole run. */
  lemma WriterOfRun(w: S.World, steps: seq<S.Step>, trace: seq<S.State>, n: nat, p: nat)
    requires S.Sound(w) && S.IsRun(w, steps, trace) && n < |trace| && p < |trace[n].writers|
    ensures var scripts := Scripts(trace[|trace| - 1]);
            p < |scripts| && scripts[p] == [trace[n].writers[p].artifact]
  {
    S.RunKeeps(w, steps, trace, n, |trace| - 1);
    assert S.WriterGrows(trace[n], trace[|trace| - 1], p);
  }

  /**
  Every run of the protocol projects onto a run of atomic appends, one per writer: the lookups of its
  states, taken in order, are views of that run, each the same as the one before or the next.
  */
  lemma {:induction false} RunProjects(w: S.World, steps: seq<S.Step>, trace: seq<S.State>, n: nat)
    returns (schedule: seq<nat>, states: seq<I.State>, at: seq<nat>)
    requires S.Sound(w) && S.IsRun(w, steps, trace) && n < |trace|
    ensures I.IsRun(Scripts(trace[|trace| - 1]), schedule, states) && states[0].view == map[]
    ensures Follows(w, trace, n, states, at)
    decreases n
  {
    var scripts := Scripts(trace[|trace| - 1]);
    if n == 0 {
      schedule, states, at := [], [I.State(map[], seq(|scripts|, _ => 0))], [0];
      assert Lookups(w, trace[0]) == map[];
    } else {
      schedule, states, at := RunProjects(w, steps, trace, n - 1);
      schedule, states, at := ProjectStep(w, steps, trace, n, schedule, states, at);
    }
  }

  lemma ProjectStep(
    w: S.World, steps: seq<S.Step>, trace: seq<S.State>, n: nat, before: seq<nat>, sofar: seq<I.State>, places: seq<nat>)
    returns (schedule: seq<nat>, states: seq<I.State>, at: seq<nat>)
    requires S.Sound(w) && S.IsRun(w, steps, trace) && 0 < n < |trace|
    requires I.IsRun(Scripts(trace[|trace| - 1]), before, sofar) && Follows(w, trace, n - 1, sofar, places)
    ensures I.IsRun(Scripts(trace[|trace| - 1]), schedule, states) && states[0] == sofar[0]
    ensures Follows(w, trace, n, states, at)
  {
    var scripts := Scripts(trace[|trace| - 1]);
    S.RunKeeps(w, steps, trace, n - 1, n - 1);
    assert S.StepAt(w, steps, trace, n - 1);
    StepInsertsAtMostOnce(w, trace[n - 1], steps[n - 1]);
    if Lookups(w, trace[n]) == Lookups(w, trace[n - 1]) {
      schedule, states, at := before, sofar, places + [places[n - 1]];
      FollowsStill(w, trace, n, sofar, places);
    } else {
      var p := steps[n - 1].p;
      var a := trace[n - 1].writers[p].artifact;
      WriterOfRun(w, steps, trace, n - 1, p);
      FreshWriterCanInsert(scripts, before, sofar, p, a);
      InsertionGoesOn(scripts, before, sofar, p);
      var next := I.Next(scripts, sofar[|before|], p);
      FollowsNext(w, trace, n, sofar, places, next);
      schedule, states, at := before + [p], sofar + [next], places + [places[n - 1] + 1];
    }
  }
}
