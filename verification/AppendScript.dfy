/**
Writing a list of artifacts to the store one append at a time.

Every persist operation and every runner is such a script.  It may be cut short anywhere: by an
append the store refuses, or by a fault the environment injects into any single append.
*/
module AppendScript {
  import opened Artifacts
  import opened ArtifactStore

  /** The fault that strikes the k-th append of a script. */
  type FaultPlan = nat -> Fault

  const NO_FAULTS: FaultPlan := (k: nat) => NoFault

  ghost predicate WellFormedScript(h: Hashing, script: seq<Artifact>) {
    forall i :: 0 <= i < |script| ==> WellFormed(h, script[i])
  }

  /** The bindings a script leaves behind when it is not refused. */
  ghost function Inserted(v: View, script: seq<Artifact>): View
    decreases |script|
  {
    if script == [] then v else Inserted(v[script[0].id := script[0]], script[1..])
  }

  ghost predicate Stored(v: View, a: Artifact) {
    a.id in v && v[a.id] == a
  }

  ghost predicate AllStored(v: View, script: seq<Artifact>) {
    forall i :: 0 <= i < |script| ==> Stored(v, script[i])
  }

  lemma {:induction false} InsertedSnoc(v: View, script: seq<Artifact>, a: Artifact)
    ensures Inserted(v, script + [a]) == Inserted(v, script)[a.id := a]
    decreases |script|
  {
    if script == [] {
      assert (script + [a])[1..] == [];
    } else {
      InsertedSnoc(v[script[0].id := script[0]], script[1..], a);
      assert (script + [a])[1..] == script[1..] + [a];
    }
  }

  lemma AllStoredGrows(v: View, u: View, script: seq<Artifact>)
    requires AllStored(v, script) && Extends(v, u)
    ensures AllStored(u, script)
  {
    forall i | 0 <= i < |script| ensures Stored(u, script[i]) {
      assert Stored(v, script[i]);
    }
  }

  lemma AllStoredParts(v: View, first: seq<Artifact>, second: seq<Artifact>)
    requires AllStored(v, first + second)
    ensures AllStored(v, first) && AllStored(v, second)
  {
    forall i | 0 <= i < |first| ensures Stored(v, first[i]) {
      assert Stored(v, (first + second)[i]);
    }
    forall i | 0 <= i < |second| ensures Stored(v, second[i]) {
      assert Stored(v, (first + second)[|first| + i]);
    }
  }

  lemma {:induction false} InsertingStoredChangesNothing(v: View, script: seq<Artifact>)
    requires AllStored(v, script)
    ensures Inserted(v, script) == v
    decreases |script|
  {
    if script != [] {
      assert Stored(v, script[0]);
      assert v[script[0].id := script[0]] == v;
      assert AllStored(v, script[1..]) by {
        forall i | 0 <= i < |script[1..]| ensures Stored(v, script[1..][i]) {
          assert Stored(v, script[i + 1]);
        }
      }
      InsertingStoredChangesNothing(v, script[1..]);
    }
  }

  lemma ExtendsTransitive(u: View, v: View, w: View)
    requires Extends(u, v) && Extends(v, w)
    ensures Extends(u, w)
  {
  }

  /** The first `k` artifacts of the script have been appended to a store that held `before`. */
  ghost predicate Progress(before: View, now: View, script: seq<Artifact>, k: nat)
    requires k <= |script|
  {
    now == Inserted(before, script[..k]) && Extends(before, now) && AllStored(now, script[..k])
  }

  lemma ProgressStep(before: View, now: View, script: seq<Artifact>, k: nat)
    requires k < |script| && Progress(before, now, script, k)
    requires script[k].id in now ==> now[script[k].id] == script[k]
    ensures Progress(before, now[script[k].id := script[k]], script, k + 1)
  {
    var a := script[k];
    var after := now[a.id := a];
    InsertedSnoc(before, script[..k], a);
    assert script[..k + 1] == script[..k] + [a];
    forall i | 0 <= i < k ensures Stored(after, script[i]) {
      assert Stored(now, script[..k][i]);
    }
  }

  lemma {:induction false} InsertedInTwo(v: View, first: seq<Artifact>, second: seq<Artifact>)
    ensures Inserted(v, first + second) == Inserted(Inserted(v, first), second)
    decreases |first|
  {
    if first == [] {
      assert first + second == second;
    } else {
      InsertedInTwo(v[first[0].id := first[0]], first[1..], second);
      assert (first + second)[1..] == first[1..] + second;
    }
  }

  /** Progress through one script and then another is progress through both. */
  lemma ProgressOnwards(before: View, middle: View, now: View, first: seq<Artifact>, second: seq<Artifact>, k: nat)
    requires k <= |second| && Progress(before, middle, first, |first|) && Progress(middle, now, second, k)
    ensures Progress(before, now, first + second, |first| + k)
  {
    assert first[..|first|] == first;
    assert (first + second)[..|first| + k] == first + second[..k];
    InsertedInTwo(before, first, second[..k]);
    AllStoredGrows(middle, now, first);
  }

  /** All of the script, or some prefix of it, was appended. */
  ghost predicate Full(before: View, now: View, script: seq<Artifact>) {
    Progress(before, now, script, |script|)
  }

  ghost predicate Partial(before: View, now: View, script: seq<Artifact>) {
    exists k: nat :: k <= |script| && Progress(before, now, script, k)
  }

  lemma FullThenFull(before: View, middle: View, now: View, first: seq<Artifact>, second: seq<Artifact>)
    requires Full(before, middle, first) && Full(middle, now, second)
    ensures Full(before, now, first + second)
  {
    ProgressOnwards(before, middle, now, first, second, |second|);
  }

  lemma FullThenPartial(before: View, middle: View, now: View, first: seq<Artifact>, second: seq<Artifact>)
    requires Full(before, middle, first) && Partial(middle, now, second)
    ensures Partial(before, now, first + second)
  {
    var k: nat :| k <= |second| && Progress(middle, now, second, k);
    ProgressOnwards(before, middle, now, first, second, k);
  }

  /** The first script was appended whole, the second up to some point. */
  ghost predicate Reaches(before: View, now: View, first: seq<Artifact>, second: seq<Artifact>) {
    exists middle: View :: Full(before, middle, first) && Partial(middle, now, second)
  }

  lemma PartialOfLonger(before: View, now: View, first: seq<Artifact>, second: seq<Artifact>)
    requires Partial(before, now, first)
    ensures Partial(before, now, first + second)
  {
    var k: nat :| k <= |first| && Progress(before, now, first, k);
    assert (first + second)[..k] == first[..k];
    assert Progress(before, now, first + second, k);
  }

  lemma NothingAppended(v: View, script: seq<Artifact>)
    ensures Partial(v, v, script)
  {
    assert script[..0] == [];
    assert Progress(v, v, script, 0);
  }

  lemma FullIsPartial(before: View, now: View, script: seq<Artifact>)
    requires Full(before, now, script)
    ensures Partial(before, now, script)
  {
  }

  lemma FullIsStored(before: View, now: View, script: seq<Artifact>)
    requires Full(before, now, script)
    ensures AllStored(now, script) && Extends(before, now)
  {
    assert script[..|script|] == script;
  }

  lemma PartialExtends(before: View, now: View, script: seq<Artifact>)
    requires Partial(before, now, script)
    ensures Extends(before, now)
  {
  }

  lemma StoppedIsPartial(before: View, now: View, script: seq<Artifact>, k: nat, stop: AppendResult)
    requires StoppedAt(before, now, script, k, stop)
    ensures Partial(before, now, script)
  {
  }

  /** What an append at position `k` may leave behind: the same progress, or one more binding. */
  ghost predicate StoppedAt(before: View, now: View, script: seq<Artifact>, k: nat, stop: AppendResult) {
    && k < |script| && !stop.Done?
    && (Progress(before, now, script, k) || (stop.Interrupted? && Progress(before, now, script, k + 1)))
  }

  method AppendNext(store: FileSystemArtifactStore, ghost before: View, script: seq<Artifact>, k: nat, fault: Fault)
    returns (r: AppendResult)
    requires store.Consistent() && k < |script| && WellFormed(store.hashing, script[k])
    requires Progress(before, store.Readable(), script, k)
    modifies store
    ensures store.Consistent()
    ensures r.Done? ==> Progress(before, store.Readable(), script, k + 1)
    ensures !r.Done? ==> StoppedAt(before, store.Readable(), script, k, r)
    ensures Stored(before, script[k]) && fault == NoFault ==> r.Done? && store.Contents() == old(store.Contents())
  {
    ghost var now := store.Readable();
    StoredAppend(store.hashing, store.Contents(), before, script[k], fault);
    r := store.Append(script[k], fault);
    if store.Readable() != now {
      ProgressStep(before, now, script, k);
    } else if r.Done? {
      ProgressStep(before, now, script, k);
    }
  }

  /**
  Appends the script in order until one append does not succeed.  The store then holds exactly
  the bindings of the finished prefix, and of the next artifact only if its append was stopped
  after it had bound its ID.
  */
  method AppendAll(store: FileSystemArtifactStore, script: seq<Artifact>, faults: FaultPlan)
    returns (done: nat, stop: Option<AppendResult>)
    requires store.Consistent() && WellFormedScript(store.hashing, script)
    modifies store
    ensures store.Consistent()
    ensures stop.None? ==> done == |script| && Full(old(store.Readable()), store.Readable(), script)
    ensures stop.Some? ==> StoppedAt(old(store.Readable()), store.Readable(), script, done, stop.value)
    ensures AllStored(old(store.Readable()), script) && (forall k: nat :: faults(k) == NoFault) ==>
              stop.None? && store.Contents() == old(store.Contents())
  {
    done := 0;
    ghost var before := store.Readable();
    ghost var quiet := AllStored(before, script) && forall k: nat :: faults(k) == NoFault;
    while done < |script|
      invariant done <= |script| && store.Consistent()
      invariant Progress(before, store.Readable(), script, done)
      invariant quiet ==> store.Contents() == old(store.Contents())
    {
      assert WellFormed(store.hashing, script[done]);
      assert quiet ==> Stored(before, script[done]) && faults(done) == NoFault;
      var r := AppendNext(store, before, script, done, faults(done));
      if !r.Done? {
        return done, Some(r);
      }
      done := done + 1;
    }
    stop := None;
  }

  /** A script of one artifact. */
  method AppendOne(store: FileSystemArtifactStore, a: Artifact, faults: FaultPlan) returns (ok: bool)
    requires store.Consistent() && WellFormed(store.hashing, a)
    modifies store
    ensures store.Consistent()
    ensures ok ==> Full(old(store.Readable()), store.Readable(), [a])
    ensures !ok ==> Partial(old(store.Readable()), store.Readable(), [a])
  {
    var done, stop := AppendAll(store, [a], faults);
    ok := stop.None?;
    if stop.Some? {
      StoppedIsPartial(old(store.Readable()), store.Readable(), [a], done, stop.value);
    }
  }

  /** An undisturbed append of what is already stored changes nothing and succeeds. */
  lemma StoredAppend(h: Hashing, d: Disk, before: View, a: Artifact, fault: Fault)
    requires Valid(h, d) && WellFormed(h, a) && Extends(before, ViewOf(h, d))
    ensures Stored(before, a) && fault == NoFault ==> AppendTo(h, d, a, fault) == (d, Done(a.Reference()))
  {
    AppendSucceedsExactly(h, d, a);
  }
}
