/**
Any number of scripts appending to one store, interleaved append by append.

A step appends the next artifact of one script.  A script that is refused, or whose process
crashes, is simply never scheduled again, so every history of complete and cut-short scripts is a
run of this system.
*/
module Interleaving {
  import opened Artifacts
  import opened ArtifactStore
  import opened AppendScript

  datatype State = State(view: View, done: seq<nat>)

  ghost predicate CanStep(scripts: seq<seq<Artifact>>, s: State, i: nat) {
    && |s.done| == |scripts| && i < |scripts| && s.done[i] < |scripts[i]|
    && var a := scripts[i][s.done[i]];
       a.id in s.view ==> s.view[a.id] == a
  }

  ghost function Next(scripts: seq<seq<Artifact>>, s: State, i: nat): State
    requires CanStep(scripts, s, i)
  {
    var a := scripts[i][s.done[i]];
    State(s.view[a.id := a], s.done[i := s.done[i] + 1])
  }

  ghost predicate Initial(scripts: seq<seq<Artifact>>, s: State) {
    |s.done| == |scripts| && forall i :: 0 <= i < |scripts| ==> s.done[i] == 0
  }

  ghost predicate IsRun(scripts: seq<seq<Artifact>>, schedule: seq<nat>, trace: seq<State>) {
    && |trace| == |schedule| + 1 && Initial(scripts, trace[0])
    && forall n :: 0 <= n < |schedule| ==>
         CanStep(scripts, trace[n], schedule[n]) && trace[n + 1] == Next(scripts, trace[n], schedule[n])
  }

  ghost predicate Reached(scripts: seq<seq<Artifact>>, s: State, i: nat, k: nat) {
    && |s.done| == |scripts| && i < |scripts| && k < |scripts[i]| && k < s.done[i]
  }

  /** Some script has appended what this ID is bound to. */
  ghost predicate Appended(scripts: seq<seq<Artifact>>, s: State, id: string)
    requires id in s.view
  {
    exists i: nat, k: nat :: Reached(scripts, s, i, k) && scripts[i][k] == s.view[id] && scripts[i][k].id == id
  }

  ghost predicate Inv(scripts: seq<seq<Artifact>>, initial: View, s: State) {
    && |s.done| == |scripts|
    && Extends(initial, s.view)
    && (forall i: nat, k: nat :: Reached(scripts, s, i, k) ==> Stored(s.view, scripts[i][k]))
    && forall id :: id in s.view && id !in initial ==> Appended(scripts, s, id)
  }

  lemma OriginStays(scripts: seq<seq<Artifact>>, initial: View, s: State, i: nat, id: string)
    requires Inv(scripts, initial, s) && CanStep(scripts, s, i)
    requires id in Next(scripts, s, i).view && id !in initial
    ensures Appended(scripts, Next(scripts, s, i), id)
  {
    var t := Next(scripts, s, i);
    if id == scripts[i][s.done[i]].id {
      assert Reached(scripts, t, i, s.done[i]);
    } else {
      assert Appended(scripts, s, id);
      var j: nat, k: nat :| Reached(scripts, s, j, k) && scripts[j][k] == s.view[id] && scripts[j][k].id == id;
      assert Reached(scripts, t, j, k);
    }
  }

  lemma ReachedStays(scripts: seq<seq<Artifact>>, initial: View, s: State, i: nat, j: nat, k: nat)
    requires Inv(scripts, initial, s) && CanStep(scripts, s, i) && Reached(scripts, Next(scripts, s, i), j, k)
    ensures Stored(Next(scripts, s, i).view, scripts[j][k])
  {
    if !(j == i && k == s.done[i]) {
      assert Reached(scripts, s, j, k);
      assert Stored(s.view, scripts[j][k]);
    }
  }

  lemma StepKeeps(scripts: seq<seq<Artifact>>, initial: View, s: State, i: nat)
    requires Inv(scripts, initial, s) && CanStep(scripts, s, i)
    ensures Inv(scripts, initial, Next(scripts, s, i)) && Extends(s.view, Next(scripts, s, i).view)
  {
    var t := Next(scripts, s, i);
    forall j: nat, k: nat | Reached(scripts, t, j, k) ensures Stored(t.view, scripts[j][k]) {
      ReachedStays(scripts, initial, s, i, j, k);
    }
    forall id | id in t.view && id !in initial ensures Appended(scripts, t, id) {
      OriginStays(scripts, initial, s, i, id);
    }
  }

  lemma {:induction false} RunKeeps(scripts: seq<seq<Artifact>>, schedule: seq<nat>, trace: seq<State>, n: nat)
    requires IsRun(scripts, schedule, trace) && n < |trace|
    ensures Inv(scripts, trace[0].view, trace[n])
  {
    if n > 0 {
      RunKeeps(scripts, schedule, trace, n - 1);
      StepKeeps(scripts, trace[0].view, trace[n - 1], schedule[n - 1]);
    }
  }

  /** Scripts that both got past an artifact of one ID appended the same artifact. */
  lemma SameIdSameArtifact(
    scripts: seq<seq<Artifact>>, schedule: seq<nat>, trace: seq<State>, n: nat, i: nat, k: nat, j: nat, l: nat)
    requires IsRun(scripts, schedule, trace) && n < |trace|
    requires Reached(scripts, trace[n], i, k) && Reached(scripts, trace[n], j, l) && scripts[i][k].id == scripts[j][l].id
    ensures scripts[i][k] == scripts[j][l]
  {
    RunKeeps(scripts, schedule, trace, n);
    assert Stored(trace[n].view, scripts[i][k]) && Stored(trace[n].view, scripts[j][l]);
  }

  /** A newly bound ID is the ID of an artifact some script reached. */
  lemma NewIdWasAppended(scripts: seq<seq<Artifact>>, schedule: seq<nat>, trace: seq<State>, n: nat, id: string)
    returns (i: nat, k: nat)
    requires IsRun(scripts, schedule, trace) && n < |trace| && id in trace[n].view && id !in trace[0].view
    ensures Reached(scripts, trace[n], i, k) && scripts[i][k].id == id && trace[n].view[id] == scripts[i][k]
  {
    RunKeeps(scripts, schedule, trace, n);
    assert Appended(scripts, trace[n], id);
    i, k :| Reached(scripts, trace[n], i, k) && scripts[i][k] == trace[n].view[id] && scripts[i][k].id == id;
  }
}
