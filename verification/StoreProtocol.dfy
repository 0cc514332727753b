/**
The same store under any number of concurrent appends.

Each append is split where another process can interleave or the machine can stop: exclusive
create (an empty file appears), partial writes, close, and every separate read.  A reader's
`get` is two reads.  Files remember which append created them; nothing else is shared.
*/
module StoreProtocol {
  import opened Artifacts

  datatype Stage =
    | CreatingBlob | WritingBlob | ComparingBlob
    | CreatingIndex | WritingIndex | ComparingIndex
    | CheckingIndex | CheckingBlob
    | Succeeded | Refused | Crashed

  datatype Writer = Writer(artifact: Artifact, stage: Stage)

  datatype File = File(owner: nat, content: Bytes)

  datatype State = State(writers: seq<Writer>, blobs: map<string, File>, index: map<string, File>)

  /** How an index record becomes bytes, and what reading the file back yields. */
  datatype Codec = Codec(encode: Ref -> Bytes, decode: Bytes -> Option<Ref>)

  /** The artifacts ever appended, with the digests and the index codec. */
  datatype World = World(h: Hashing, codec: Codec, pool: set<Artifact>)

  /** Distinct payloads in play have distinct digests; an empty or truncated index record never parses. */
  ghost predicate Sound(w: World) {
    && (forall a :: a in w.pool ==> WellFormed(w.h, a))
    && (forall a, b :: a in w.pool && b in w.pool && a.hash == b.hash ==> a.payload == b.payload)
    && (forall r :: w.codec.decode(w.codec.encode(r)) == Some(r))
    && w.codec.decode([]) == None
    && (forall r, n :: 0 <= n < |w.codec.encode(r)| ==> w.codec.decode(w.codec.encode(r)[..n]) == None)
  }

  datatype Step =
    | Begin(a: Artifact)
    | CreateBlob(p: nat) | WriteBlob(p: nat, n: nat) | CloseBlob(p: nat) | CompareBlob(p: nat)
    | CreateIndex(p: nat) | WriteIndex(p: nat, n: nat) | CloseIndex(p: nat) | CompareIndex(p: nat)
    | CheckIndex(p: nat) | CheckBlob(p: nat)
    | Crash(p: nat)

  const INITIAL: State := State([], map[], map[])

  predicate At(s: State, p: nat, stage: Stage) {
    p < |s.writers| && s.writers[p].stage == stage
  }

  function Move(s: State, p: nat, stage: Stage): State
    requires p < |s.writers|
  {
    s.(writers := s.writers[p := s.writers[p].(stage := stage)])
  }

  function Record(w: World, a: Artifact): Bytes {
    w.codec.encode(a.Reference())
  }

  predicate Enabled(w: World, s: State, step: Step) {
    match step
    case Begin(a) => a in w.pool
    case CreateBlob(p) => At(s, p, CreatingBlob)
    case WriteBlob(p, n) =>
      && At(s, p, WritingBlob)
      && var a := s.writers[p].artifact;
         a.hash in s.blobs && |s.blobs[a.hash].content| <= n <= |a.payload|
    case CloseBlob(p) =>
      && At(s, p, WritingBlob)
      && var a := s.writers[p].artifact;
         a.hash in s.blobs && |s.blobs[a.hash].content| == |a.payload|
    case CompareBlob(p) => At(s, p, ComparingBlob) && s.writers[p].artifact.hash in s.blobs
    case CreateIndex(p) => At(s, p, CreatingIndex)
    case WriteIndex(p, n) =>
      && At(s, p, WritingIndex)
      && var a := s.writers[p].artifact;
         var k := w.h.key(a.id);
         k in s.index && |s.index[k].content| <= n <= |Record(w, a)|
    case CloseIndex(p) =>
      && At(s, p, WritingIndex)
      && var a := s.writers[p].artifact;
         var k := w.h.key(a.id);
         k in s.index && |s.index[k].content| == |Record(w, a)|
    case CompareIndex(p) => At(s, p, ComparingIndex) && w.h.key(s.writers[p].artifact.id) in s.index
    case CheckIndex(p) => At(s, p, CheckingIndex)
    case CheckBlob(p) => At(s, p, CheckingBlob)
    case Crash(p) => p < |s.writers| && s.writers[p].stage !in {Succeeded, Refused, Crashed}
  }

  function Apply(w: World, s: State, step: Step): State
    requires Enabled(w, s, step)
  {
    match step
    case Begin(a) => s.(writers := s.writers + [Writer(a, CreatingBlob)])
    case CreateBlob(p) =>
      var a := s.writers[p].artifact;
      if a.hash in s.blobs then Move(s, p, ComparingBlob)
      else Move(s, p, WritingBlob).(blobs := s.blobs[a.hash := File(p, [])])
    case WriteBlob(p, n) =>
      var a := s.writers[p].artifact;
      s.(blobs := s.blobs[a.hash := File(p, a.payload[..n])])
    case CloseBlob(p) => Move(s, p, CreatingIndex)
    case CompareBlob(p) =>
      var a := s.writers[p].artifact;
      Move(s, p, if s.blobs[a.hash].content == a.payload then CreatingIndex else Refused)
    case CreateIndex(p) =>
      var k := w.h.key(s.writers[p].artifact.id);
      if k in s.index then Move(s, p, ComparingIndex)
      else Move(s, p, WritingIndex).(index := s.index[k := File(p, [])])
    case WriteIndex(p, n) =>
      var a := s.writers[p].artifact;
      s.(index := s.index[w.h.key(a.id) := File(p, Record(w, a)[..n])])
    case CloseIndex(p) => Move(s, p, CheckingIndex)
    case CompareIndex(p) =>
      var a := s.writers[p].artifact;
      var existing := w.codec.decode(s.index[w.h.key(a.id)].content);
      Move(s, p, if existing == Some(a.Reference()) then CheckingIndex else Refused)
    case CheckIndex(p) =>
      var a := s.writers[p].artifact;
      Move(s, p, if ReadIndex(w, s, a.id) == Some(a.Reference()) then CheckingBlob else Refused)
    case CheckBlob(p) =>
      var a := s.writers[p].artifact;
      Move(s, p, if ReadBlob(w, s, a.hash).Some? then Succeeded else Refused)
    case Crash(p) => Move(s, p, Crashed)
  }

  // ----- the two reads of a lookup -----

  function ReadIndex(w: World, s: State, id: string): Option<Ref> {
    var k := w.h.key(id);
    if k !in s.index then None
    else
      match w.codec.decode(s.index[k].content)
      case None => None
      case Some(r) => if r.id == id then Some(r) else None
  }

  function ReadBlob(w: World, s: State, hash: string): Option<Bytes> {
    if hash in s.blobs && w.h.blob(s.blobs[hash].content) == hash then Some(s.blobs[hash].content) else None
  }

  /** A lookup whose index read happens in `s` and whose blob read happens in `t`. */
  function SplitGet(w: World, s: State, t: State, id: string): Option<Artifact> {
    match ReadIndex(w, s, id)
    case None => None
    case Some(r) =>
      match ReadBlob(w, t, r.hash)
      case None => None
      case Some(bytes) => Some(Artifact(r.id, bytes, r.hash))
  }

  // ----- the invariant -----

  predicate HoldsFully(s: State, a: Artifact) {
    a.hash in s.blobs && s.blobs[a.hash].content == a.payload
  }

  predicate PastBlob(stage: Stage) {
    stage in {CreatingIndex, WritingIndex, ComparingIndex, CheckingIndex, CheckingBlob, Succeeded}
  }

  predicate PastIndex(stage: Stage) {
    stage in {CheckingIndex, CheckingBlob, Succeeded}
  }

  ghost predicate BlobFileInv(s: State, hash: string, f: File) {
    && f.owner < |s.writers|
    && var o := s.writers[f.owner];
       && o.artifact.hash == hash && f.content <= o.artifact.payload
       && o.stage !in {CreatingBlob, ComparingBlob}
       && (f.content == o.artifact.payload || o.stage in {WritingBlob, Crashed})
  }

  ghost predicate IndexFileInv(w: World, s: State, k: string, f: File) {
    && f.owner < |s.writers|
    && var o := s.writers[f.owner];
       && w.h.key(o.artifact.id) == k && f.content <= Record(w, o.artifact)
       && (o.stage == WritingIndex || o.stage == Crashed || (PastIndex(o.stage) && f.content == Record(w, o.artifact)))
       && HoldsFully(s, o.artifact)
  }

  ghost predicate WriterInv(w: World, s: State, p: nat)
    requires p < |s.writers|
  {
    var a := s.writers[p].artifact;
    var k := w.h.key(a.id);
    var stage := s.writers[p].stage;
    && a in w.pool
    && (stage in {ComparingBlob, WritingBlob} ==> a.hash in s.blobs)
    && (stage == WritingBlob ==> s.blobs[a.hash].owner == p)
    && (PastBlob(stage) ==> HoldsFully(s, a))
    && (stage in {ComparingIndex, WritingIndex} ==> k in s.index)
    && (stage == WritingIndex ==> s.index[k].owner == p)
    && (PastIndex(stage) ==> k in s.index && s.index[k].content == Record(w, a))
  }

  ghost predicate Inv(w: World, s: State) {
    && (forall p :: 0 <= p < |s.writers| ==> WriterInv(w, s, p))
    && (forall hash :: hash in s.blobs ==> BlobFileInv(s, hash, s.blobs[hash]))
    && (forall k :: k in s.index ==> IndexFileInv(w, s, k, s.index[k]))
  }

  /** A file keeps its creator and never shrinks. */
  predicate FileGrows(before: map<string, File>, after: map<string, File>, name: string) {
    name in before ==>
      name in after && after[name].owner == before[name].owner && before[name].content <= after[name].content
  }

  predicate Finished(stage: Stage) {
    stage in {Succeeded, Refused, Crashed}
  }

  ghost predicate WriterGrows(s: State, t: State, p: nat)
    requires p < |s.writers| <= |t.writers|
  {
    && t.writers[p].artifact == s.writers[p].artifact
    && (Finished(s.writers[p].stage) ==> t.writers[p] == s.writers[p])
  }

  ghost predicate Grows(s: State, t: State) {
    && |s.writers| <= |t.writers|
    && (forall p :: 0 <= p < |s.writers| ==> WriterGrows(s, t, p))
    && (forall x :: FileGrows(s.blobs, t.blobs, x))
    && (forall k :: FileGrows(s.index, t.index, k))
  }

  lemma GrowsTransitive(s: State, t: State, u: State)
    requires Grows(s, t) && Grows(t, u)
    ensures Grows(s, u)
  {
    forall p | 0 <= p < |s.writers| ensures WriterGrows(s, u, p) {
      assert WriterGrows(s, t, p) && WriterGrows(t, u, p);
    }
    forall x ensures FileGrows(s.blobs, u.blobs, x) && FileGrows(s.index, u.index, x) {
      assert FileGrows(s.blobs, t.blobs, x) && FileGrows(t.blobs, u.blobs, x);
      assert FileGrows(s.index, t.index, x) && FileGrows(t.index, u.index, x);
    }
  }

  // One lemma per kind of effect a step can have.

  lemma BeginKeeps(w: World, s: State, a: Artifact)
    requires Inv(w, s) && a in w.pool
    ensures var t := Apply(w, s, Begin(a)); Inv(w, t) && Grows(s, t)
  {
    var t := Apply(w, s, Begin(a));
    forall p | 0 <= p < |t.writers| ensures WriterInv(w, t, p) {
      assert p < |s.writers| ==> WriterInv(w, s, p);
    }
    forall hash | hash in t.blobs ensures BlobFileInv(t, hash, t.blobs[hash]) {
      assert BlobFileInv(s, hash, s.blobs[hash]);
    }
    forall k | k in t.index ensures IndexFileInv(w, t, k, t.index[k]) {
      assert IndexFileInv(w, s, k, s.index[k]);
    }
  }

  /** The files append `p` created are complete, and an index file only if `stage` is past writing it. */
  ghost predicate OwnFilesComplete(w: World, s: State, p: nat, stage: Stage)
    requires p < |s.writers|
  {
    && (forall x :: x in s.blobs && s.blobs[x].owner == p ==> s.blobs[x].content == s.writers[p].artifact.payload)
    && (forall k :: k in s.index && s.index[k].owner == p ==>
          PastIndex(stage) && s.index[k].content == Record(w, s.writers[p].artifact))
  }

  /** Only the stage of `p` changes; the new stage's own facts are the caller's to show. */
  lemma MoveKeeps(w: World, s: State, p: nat, stage: Stage)
    requires Inv(w, s) && p < |s.writers| && !Finished(s.writers[p].stage)
    requires WriterInv(w, Move(s, p, stage), p)
    requires stage !in {CreatingBlob, WritingBlob, WritingIndex}
    requires stage == ComparingBlob ==> s.writers[p].stage == CreatingBlob
    requires stage == Crashed || OwnFilesComplete(w, s, p, stage)
    ensures var t := Move(s, p, stage); Inv(w, t) && Grows(s, t)
  {
    var t := Move(s, p, stage);
    forall q | 0 <= q < |t.writers| ensures WriterInv(w, t, q) {
      assert WriterInv(w, s, q);
    }
    forall hash | hash in t.blobs ensures BlobFileInv(t, hash, t.blobs[hash]) {
      assert BlobFileInv(s, hash, s.blobs[hash]);
    }
    forall k | k in t.index ensures IndexFileInv(w, t, k, t.index[k]) {
      assert IndexFileInv(w, s, k, s.index[k]);
    }
  }

  /** Before its index stage an append owns no index file, and outside writing its blob is complete. */
  lemma OwnFilesOf(w: World, s: State, p: nat, stage: Stage)
    requires Inv(w, s) && p < |s.writers| && s.writers[p].stage != Crashed
    requires s.writers[p].stage == WritingBlob ==> HoldsFully(s, s.writers[p].artifact)
    requires PastIndex(s.writers[p].stage) ==> PastIndex(stage)
    requires s.writers[p].stage == WritingIndex ==>
               PastIndex(stage) && var k := w.h.key(s.writers[p].artifact.id);
               k in s.index && s.index[k].content == Record(w, s.writers[p].artifact)
    ensures OwnFilesComplete(w, s, p, stage)
  {
    forall x | x in s.blobs && s.blobs[x].owner == p
      ensures s.blobs[x].content == s.writers[p].artifact.payload
    {
      assert BlobFileInv(s, x, s.blobs[x]);
    }
    forall k | k in s.index && s.index[k].owner == p
      ensures PastIndex(stage) && s.index[k].content == Record(w, s.writers[p].artifact)
    {
      assert IndexFileInv(w, s, k, s.index[k]);
    }
  }

  /** Two appends with one digest carry one payload. */
  lemma SameDigestSamePayload(w: World, s: State, p: nat, q: nat)
    requires Sound(w) && Inv(w, s) && p < |s.writers| && q < |s.writers|
    requires s.writers[p].artifact.hash == s.writers[q].artifact.hash
    ensures s.writers[p].artifact.payload == s.writers[q].artifact.payload
  {
    assert WriterInv(w, s, p) && WriterInv(w, s, q);
  }

  lemma CreateBlobKeeps(w: World, s: State, p: nat)
    requires Inv(w, s) && At(s, p, CreatingBlob) && s.writers[p].artifact.hash !in s.blobs
    ensures var t := Apply(w, s, CreateBlob(p)); Inv(w, t) && Grows(s, t)
  {
    var t := Apply(w, s, CreateBlob(p));
    var a := s.writers[p].artifact;
    forall q | 0 <= q < |t.writers| ensures WriterInv(w, t, q) {
      assert WriterInv(w, s, q);
    }
    forall hash | hash in t.blobs ensures BlobFileInv(t, hash, t.blobs[hash]) {
      assert hash != a.hash ==> BlobFileInv(s, hash, s.blobs[hash]);
    }
    forall k | k in t.index ensures IndexFileInv(w, t, k, t.index[k]) {
      assert IndexFileInv(w, s, k, s.index[k]);
    }
  }

  /** Rewriting a blob by its own writer: any artifact stored in full under it stays so. */
  lemma WriteBlobKeepsFull(w: World, s: State, p: nat, n: nat, q: nat)
    requires Sound(w) && Inv(w, s) && Enabled(w, s, WriteBlob(p, n)) && q < |s.writers|
    ensures HoldsFully(s, s.writers[q].artifact) ==> HoldsFully(Apply(w, s, WriteBlob(p, n)), s.writers[q].artifact)
  {
    var a := s.writers[p].artifact;
    if s.writers[q].artifact.hash == a.hash {
      SameDigestSamePayload(w, s, p, q);
    }
  }

  lemma WriteBlobKeepsFile(w: World, s: State, p: nat, n: nat, hash: string)
    requires Inv(w, s) && Enabled(w, s, WriteBlob(p, n)) && hash in s.blobs
    ensures var t := Apply(w, s, WriteBlob(p, n));
            hash in t.blobs && BlobFileInv(t, hash, t.blobs[hash]) && FileGrows(s.blobs, t.blobs, hash)
  {
    assert WriterInv(w, s, p);
    assert BlobFileInv(s, hash, s.blobs[hash]);
  }

  lemma WriteBlobKeeps(w: World, s: State, p: nat, n: nat)
    requires Sound(w) && Inv(w, s) && Enabled(w, s, WriteBlob(p, n))
    ensures var t := Apply(w, s, WriteBlob(p, n)); Inv(w, t) && Grows(s, t)
  {
    var t := Apply(w, s, WriteBlob(p, n));
    assert t.writers == s.writers && t.index == s.index && t.blobs.Keys == s.blobs.Keys;
    assert WriterInv(w, s, p);
    forall q | 0 <= q < |t.writers| ensures WriterInv(w, t, q) {
      assert WriterInv(w, s, q);
      WriteBlobKeepsFull(w, s, p, n, q);
    }
    forall hash | hash in t.blobs ensures BlobFileInv(t, hash, t.blobs[hash]) && FileGrows(s.blobs, t.blobs, hash) {
      WriteBlobKeepsFile(w, s, p, n, hash);
    }
    forall k | k in t.index ensures IndexFileInv(w, t, k, t.index[k]) {
      assert IndexFileInv(w, s, k, s.index[k]);
      WriteBlobKeepsFull(w, s, p, n, s.index[k].owner);
    }
  }

  lemma TruncatedRecordIsUnreadable(w: World, r: Ref, n: nat)
    requires Sound(w)
    ensures n < |w.codec.encode(r)| ==> w.codec.decode(w.codec.encode(r)[..n]) == None
  {
  }

  /** Only a complete record parses, so whatever parses is the record its creator wrote. */
  lemma ParsedRecordIsComplete(w: World, bytes: Bytes, r: Ref, parsed: Ref)
    requires Sound(w) && bytes <= w.codec.encode(r) && w.codec.decode(bytes) == Some(parsed)
    ensures parsed == r && bytes == w.codec.encode(r)
  {
    TruncatedRecordIsUnreadable(w, r, |bytes|);
    assert bytes == w.codec.encode(r)[..|bytes|];
    assert bytes == w.codec.encode(r);
  }

  ghost predicate CreatesIndex(w: World, s: State, p: nat) {
    At(s, p, CreatingIndex) && w.h.key(s.writers[p].artifact.id) !in s.index
  }

  lemma CreateIndexKeepsWriter(w: World, s: State, p: nat, q: nat)
    requires Inv(w, s) && CreatesIndex(w, s, p) && q < |s.writers|
    ensures WriterInv(w, Apply(w, s, CreateIndex(p)), q)
  {
    assert WriterInv(w, s, q);
  }

  lemma CreateIndexKeepsFile(w: World, s: State, p: nat, k: string)
    requires Inv(w, s) && CreatesIndex(w, s, p) && k in Apply(w, s, CreateIndex(p)).index
    ensures var t := Apply(w, s, CreateIndex(p)); IndexFileInv(w, t, k, t.index[k])
  {
    if k == w.h.key(s.writers[p].artifact.id) {
      assert WriterInv(w, s, p);
    } else {
      assert IndexFileInv(w, s, k, s.index[k]);
    }
  }

  lemma CreateIndexKeeps(w: World, s: State, p: nat)
    requires Inv(w, s) && At(s, p, CreatingIndex) && w.h.key(s.writers[p].artifact.id) !in s.index
    ensures var t := Apply(w, s, CreateIndex(p)); Inv(w, t) && Grows(s, t)
  {
    var t := Apply(w, s, CreateIndex(p));
    assert t.blobs == s.blobs && |t.writers| == |s.writers|;
    forall q | 0 <= q < |t.writers| ensures WriterInv(w, t, q) && WriterGrows(s, t, q) {
      CreateIndexKeepsWriter(w, s, p, q);
    }
    forall hash | hash in t.blobs ensures BlobFileInv(t, hash, t.blobs[hash]) {
      assert BlobFileInv(s, hash, s.blobs[hash]);
    }
    forall k | k in t.index ensures IndexFileInv(w, t, k, t.index[k]) {
      CreateIndexKeepsFile(w, s, p, k);
    }
  }

  /** Rewriting an index file by its own writer leaves every other writer's facts alone. */
  lemma WriteIndexKeepsWriter(w: World, s: State, p: nat, n: nat, q: nat)
    requires Sound(w) && Inv(w, s) && Enabled(w, s, WriteIndex(p, n)) && q < |s.writers|
    ensures WriterInv(w, Apply(w, s, WriteIndex(p, n)), q)
  {
    assert WriterInv(w, s, q) && WriterInv(w, s, p);
    if PastIndex(s.writers[q].stage) && w.h.key(s.writers[q].artifact.id) == w.h.key(s.writers[p].artifact.id) {
      CompletedRecordIsNotRewritten(w, s, p, q, n);
    }
  }

  lemma WriteIndexKeepsFile(w: World, s: State, p: nat, n: nat, k: string)
    requires Inv(w, s) && Enabled(w, s, WriteIndex(p, n)) && k in s.index
    ensures var t := Apply(w, s, WriteIndex(p, n));
            k in t.index && IndexFileInv(w, t, k, t.index[k]) && FileGrows(s.index, t.index, k)
  {
    assert WriterInv(w, s, p);
    assert IndexFileInv(w, s, k, s.index[k]);
  }

  lemma WriteIndexKeeps(w: World, s: State, p: nat, n: nat)
    requires Sound(w) && Inv(w, s) && Enabled(w, s, WriteIndex(p, n))
    ensures var t := Apply(w, s, WriteIndex(p, n)); Inv(w, t) && Grows(s, t)
  {
    var t := Apply(w, s, WriteIndex(p, n));
    assert t.writers == s.writers && t.blobs == s.blobs && t.index.Keys == s.index.Keys;
    forall q | 0 <= q < |t.writers| ensures WriterInv(w, t, q) {
      WriteIndexKeepsWriter(w, s, p, n, q);
    }
    forall hash | hash in t.blobs ensures BlobFileInv(t, hash, t.blobs[hash]) {
      assert BlobFileInv(s, hash, s.blobs[hash]);
    }
    forall k | k in t.index ensures IndexFileInv(w, t, k, t.index[k]) && FileGrows(s.index, t.index, k) {
      WriteIndexKeepsFile(w, s, p, n, k);
    }
  }

  lemma CompletedRecordIsNotRewritten(w: World, s: State, p: nat, q: nat, n: nat)
    requires Sound(w) && Inv(w, s) && Enabled(w, s, WriteIndex(p, n))
    requires q < |s.writers| && PastIndex(s.writers[q].stage)
    requires w.h.key(s.writers[q].artifact.id) == w.h.key(s.writers[p].artifact.id)
    ensures Record(w, s.writers[p].artifact)[..n] == Record(w, s.writers[q].artifact)
  {
    var key := w.h.key(s.writers[p].artifact.id);
    assert WriterInv(w, s, p) && WriterInv(w, s, q) && IndexFileInv(w, s, key, s.index[key]);
    ParsedRecordIsComplete(w, s.index[key].content, s.writers[p].artifact.Reference(), s.writers[q].artifact.Reference());
  }

  /** The final checks of an append cannot fail: whatever reached them is stored in full. */
  lemma ChecksNeverFail(w: World, s: State, p: nat)
    requires Sound(w) && Inv(w, s) && p < |s.writers| && PastIndex(s.writers[p].stage)
    ensures var a := s.writers[p].artifact;
            ReadIndex(w, s, a.id) == Some(a.Reference()) && ReadBlob(w, s, a.hash) == Some(a.payload)
  {
    assert WriterInv(w, s, p);
  }

  lemma BlobStageStepKeeps(w: World, s: State, step: Step)
    requires Sound(w) && Inv(w, s) && Enabled(w, s, step) && (step.CloseBlob? || step.CompareBlob?)
    ensures var t := Apply(w, s, step); Inv(w, t) && Grows(s, t)
  {
    var p := step.p;
    var a := s.writers[p].artifact;
    assert WriterInv(w, s, p) && BlobFileInv(s, a.hash, s.blobs[a.hash]);
    if step.CloseBlob? {
      assert HoldsFully(s, a);
    }
    var stage := Apply(w, s, step).writers[p].stage;
    OwnFilesOf(w, s, p, stage);
    MoveKeeps(w, s, p, stage);
  }

  /** What a writer leaving the index stage may assume of the index file in its place. */
  lemma IndexFileAgrees(w: World, s: State, step: Step)
    requires Sound(w) && Inv(w, s) && Enabled(w, s, step) && (step.CloseIndex? || step.CompareIndex?)
    ensures var a := s.writers[step.p].artifact;
            var k := w.h.key(a.id);
            && WriterInv(w, s, step.p) && k in s.index && IndexFileInv(w, s, k, s.index[k])
            && (PastIndex(Apply(w, s, step).writers[step.p].stage) ==> s.index[k].content == Record(w, a))
  {
    var a := s.writers[step.p].artifact;
    var k := w.h.key(a.id);
    assert WriterInv(w, s, step.p) && IndexFileInv(w, s, k, s.index[k]);
    if step.CompareIndex? && w.codec.decode(s.index[k].content) == Some(a.Reference()) {
      ParsedRecordIsComplete(w, s.index[k].content, s.writers[s.index[k].owner].artifact.Reference(), a.Reference());
    }
  }

  lemma IndexStageStepKeeps(w: World, s: State, step: Step)
    requires Sound(w) && Inv(w, s) && Enabled(w, s, step) && (step.CloseIndex? || step.CompareIndex?)
    ensures var t := Apply(w, s, step); Inv(w, t) && Grows(s, t)
  {
    IndexFileAgrees(w, s, step);
    var stage := Apply(w, s, step).writers[step.p].stage;
    OwnFilesOf(w, s, step.p, stage);
    MoveKeeps(w, s, step.p, stage);
  }

  lemma CheckStepKeeps(w: World, s: State, step: Step)
    requires Sound(w) && Inv(w, s) && Enabled(w, s, step) && (step.CheckIndex? || step.CheckBlob?)
    ensures var t := Apply(w, s, step); Inv(w, t) && Grows(s, t)
  {
    var p := step.p;
    ChecksNeverFail(w, s, p);
    var stage := if step.CheckIndex? then CheckingBlob else Succeeded;
    assert WriterInv(w, s, p);
    OwnFilesOf(w, s, p, stage);
    MoveKeeps(w, s, p, stage);
  }

  lemma CompareInsteadKeeps(w: World, s: State, step: Step)
    requires Inv(w, s) && Enabled(w, s, step)
    requires step.CreateBlob? || step.CreateIndex?
    requires step.CreateBlob? ==> s.writers[step.p].artifact.hash in s.blobs
    requires step.CreateIndex? ==> w.h.key(s.writers[step.p].artifact.id) in s.index
    ensures var t := Apply(w, s, step); Inv(w, t) && Grows(s, t)
  {
    var p := step.p;
    var stage := if step.CreateBlob? then ComparingBlob else ComparingIndex;
    assert WriterInv(w, s, p);
    OwnFilesOf(w, s, p, stage);
    MoveKeeps(w, s, p, stage);
  }

  /** Every step, by any append, at any moment, keeps the invariant and only grows files. */
  lemma StepKeeps(w: World, s: State, step: Step)
    requires Sound(w) && Inv(w, s) && Enabled(w, s, step)
    ensures var t := Apply(w, s, step); Inv(w, t) && Grows(s, t)
  {
    match step
    case Begin(a) => BeginKeeps(w, s, a);
    case CreateBlob(p) =>
      if s.writers[p].artifact.hash in s.blobs {
        CompareInsteadKeeps(w, s, step);
      } else {
        CreateBlobKeeps(w, s, p);
      }
    case WriteBlob(p, n) => WriteBlobKeeps(w, s, p, n);
    case CreateIndex(p) =>
      if w.h.key(s.writers[p].artifact.id) in s.index {
        CompareInsteadKeeps(w, s, step);
      } else {
        CreateIndexKeeps(w, s, p);
      }
    case WriteIndex(p, n) => WriteIndexKeeps(w, s, p, n);
    case CloseBlob(_) => BlobStageStepKeeps(w, s, step);
    case CompareBlob(_) => BlobStageStepKeeps(w, s, step);
    case CloseIndex(_) => IndexStageStepKeeps(w, s, step);
    case CompareIndex(_) => IndexStageStepKeeps(w, s, step);
    case CheckIndex(_) => CheckStepKeeps(w, s, step);
    case CheckBlob(_) => CheckStepKeeps(w, s, step);
    case Crash(p) =>
      assert WriterInv(w, s, p);
      MoveKeeps(w, s, p, Crashed);
  }

  // ----- whole runs -----

  /** A run from the empty store: step `i` leads from `trace[i]` to `trace[i + 1]`. */
  ghost predicate StepAt(w: World, steps: seq<Step>, trace: seq<State>, i: nat)
    requires i < |steps| && i + 1 < |trace|
  {
    Enabled(w, trace[i], steps[i]) && trace[i + 1] == Apply(w, trace[i], steps[i])
  }

  ghost predicate IsRun(w: World, steps: seq<Step>, trace: seq<State>) {
    && |trace| == |steps| + 1 && trace[0] == INITIAL
    && forall i :: 0 <= i < |steps| ==> StepAt(w, steps, trace, i)
  }

  lemma {:induction false} RunKeeps(w: World, steps: seq<Step>, trace: seq<State>, i: nat, j: nat)
    requires Sound(w) && IsRun(w, steps, trace) && i <= j < |trace|
    ensures Inv(w, trace[i]) && Inv(w, trace[j]) && Grows(trace[i], trace[j])
    decreases j
  {
    if j > 0 {
      RunKeeps(w, steps, trace, if i == j then i - 1 else i, j - 1);
      assert StepAt(w, steps, trace, j - 1);
      StepKeeps(w, trace[j - 1], steps[j - 1]);
      if i < j {
        GrowsTransitive(trace[i], trace[j - 1], trace[j]);
      }
    }
  }

  /**
  The write order at work: whenever an index file exists, even half written, the blob that its
  creator's record names already holds the whole payload, and does so in every later state.
  */
  lemma IndexImpliesFullBlob(w: World, steps: seq<Step>, trace: seq<State>, i: nat, j: nat, k: string)
    requires Sound(w) && IsRun(w, steps, trace) && i <= j < |trace| && k in trace[i].index
    ensures var f := trace[i].index[k];
            && f.owner < |trace[i].writers|
            && var a := trace[i].writers[f.owner].artifact;
               && w.h.key(a.id) == k && f.content <= Record(w, a)
               && HoldsFully(trace[i], a) && HoldsFully(trace[j], a)
  {
    RunKeeps(w, steps, trace, i, j);
    var f := trace[i].index[k];
    assert IndexFileInv(w, trace[i], k, f);
    FullStaysFull(w, trace[i], trace[j], f.owner);
  }

  /** What a payload's blob once held in full it keeps: its creator has the same payload. */
  lemma FullStaysFull(w: World, s: State, t: State, p: nat)
    requires Sound(w) && Inv(w, s) && Inv(w, t) && Grows(s, t)
    requires p < |s.writers| && HoldsFully(s, s.writers[p].artifact)
    ensures HoldsFully(t, s.writers[p].artifact)
  {
    var a := s.writers[p].artifact;
    assert WriterGrows(s, t, p) && FileGrows(s.blobs, t.blobs, a.hash);
    var f := t.blobs[a.hash];
    assert BlobFileInv(t, a.hash, f);
    SameDigestSamePayload(w, t, p, f.owner);
  }

  /**
  Whatever a lookup returns, with any steps of any appends between its two reads, is exactly an
  artifact that some append was given under that ID.
  */
  lemma LookupReturnsAppendedBytes(w: World, steps: seq<Step>, trace: seq<State>, i: nat, j: nat, id: string)
    requires Sound(w) && IsRun(w, steps, trace) && i <= j < |trace|
    requires SplitGet(w, trace[i], trace[j], id).Some?
    ensures var a := SplitGet(w, trace[i], trace[j], id).value;
            a.id == id && a in w.pool && exists p :: 0 <= p < |trace[i].writers| && trace[i].writers[p].artifact == a
  {
    RunKeeps(w, steps, trace, i, j);
    var s, k := trace[i], w.h.key(id);
    var p := s.index[k].owner;
    assert IndexFileInv(w, s, k, s.index[k]);
    ParsedRecordIsComplete(w, s.index[k].content, s.writers[p].artifact.Reference(), ReadIndex(w, s, id).value);
    FullStaysFull(w, s, trace[j], p);
    assert WriterInv(w, s, p);
    assert s.writers[p].artifact == SplitGet(w, s, trace[j], id).value;
  }

  /** Once an append has succeeded, every later lookup of its ID returns its artifact and no other. */
  lemma SuccessIsPermanent(w: World, steps: seq<Step>, trace: seq<State>, n: nat, i: nat, j: nat, p: nat)
    requires Sound(w) && IsRun(w, steps, trace) && n <= i <= j < |trace| && At(trace[n], p, Succeeded)
    ensures SplitGet(w, trace[i], trace[j], trace[n].writers[p].artifact.id) == Some(trace[n].writers[p].artifact)
  {
    RunKeeps(w, steps, trace, n, i);
    RunKeeps(w, steps, trace, i, j);
    RunKeeps(w, steps, trace, n, j);
    assert WriterGrows(trace[n], trace[i], p) && WriterGrows(trace[n], trace[j], p);
    ChecksNeverFail(w, trace[i], p);
    ChecksNeverFail(w, trace[j], p);
  }

  /** Two appends under one ID never both succeed with different artifacts, in any interleaving. */
  lemma OneArtifactPerId(w: World, steps: seq<Step>, trace: seq<State>, i: nat, p: nat, q: nat)
    requires Sound(w) && IsRun(w, steps, trace) && i < |trace|
    requires At(trace[i], p, Succeeded) && At(trace[i], q, Succeeded)
    requires trace[i].writers[p].artifact.id == trace[i].writers[q].artifact.id
    ensures trace[i].writers[p].artifact == trace[i].writers[q].artifact
  {
    SuccessIsPermanent(w, steps, trace, i, i, i, p);
    SuccessIsPermanent(w, steps, trace, i, i, i, q);
  }

  // ----- refinement of an atomic append-only map -----

  ghost predicate Readable(w: World, s: State, id: string) {
    SplitGet(w, s, s, id).Some?
  }

  /**
  Seen through lookups, one step of the protocol either changes nothing or inserts one fresh ID,
  and only the write that completes an index record inserts.
  */
  lemma StepRefinesInsertion(w: World, s: State, step: Step)
    requires Sound(w) && Inv(w, s) && Enabled(w, s, step)
    ensures var t := Apply(w, s, step);
            forall id ::
              || SplitGet(w, t, t, id) == SplitGet(w, s, s, id)
              || (&& step.WriteIndex? && id == s.writers[step.p].artifact.id && !Readable(w, s, id)
                  && step.n == |Record(w, s.writers[step.p].artifact)|
                  && SplitGet(w, t, t, id) == Some(s.writers[step.p].artifact))
  {
    var t := Apply(w, s, step);
    StepKeeps(w, s, step);
    forall id
      ensures || SplitGet(w, t, t, id) == SplitGet(w, s, s, id)
              || (&& step.WriteIndex? && id == s.writers[step.p].artifact.id && !Readable(w, s, id)
                  && step.n == |Record(w, s.writers[step.p].artifact)|
                  && SplitGet(w, t, t, id) == Some(s.writers[step.p].artifact))
    {
      LookupAfterStep(w, s, step, id);
    }
  }

  /** A readable ID stays readable with the same artifact, provided both states satisfy the invariant. */
  lemma LookupIsStable(w: World, s: State, t: State, id: string)
    requires Sound(w) && Inv(w, s) && Inv(w, t) && Grows(s, t) && ReadIndex(w, s, id).Some?
    ensures SplitGet(w, s, s, id).Some? && SplitGet(w, t, t, id) == SplitGet(w, s, s, id)
    ensures exists p :: 0 <= p < |s.writers| && SplitGet(w, s, s, id) == Some(s.writers[p].artifact)
                        && s.index[w.h.key(id)].owner == p && s.index[w.h.key(id)].content == Record(w, s.writers[p].artifact)
  {
    var k := w.h.key(id);
    var p := s.index[k].owner;
    var a := s.writers[p].artifact;
    assert IndexFileInv(w, s, k, s.index[k]) && IndexFileInv(w, t, k, t.index[k]) by {
      assert FileGrows(s.index, t.index, k);
    }
    ParsedRecordIsComplete(w, s.index[k].content, a.Reference(), ReadIndex(w, s, id).value);
    assert FileGrows(s.index, t.index, k) && WriterGrows(s, t, p) && WriterInv(w, s, p);
    assert t.index[k].content == Record(w, a);
    FullStaysFull(w, s, t, p);
  }

  /** A record that a step makes readable was completed by that step. */
  lemma NewRecordIsWritten(w: World, s: State, step: Step, id: string)
    requires Sound(w) && Inv(w, s) && Enabled(w, s, step)
    requires ReadIndex(w, s, id).None? && ReadIndex(w, Apply(w, s, step), id).Some?
    ensures step.CreateIndex? || step.WriteIndex?
    ensures w.h.key(id) == w.h.key(s.writers[step.p].artifact.id)
    ensures Apply(w, s, step).index[w.h.key(id)].owner == step.p && Apply(w, s, step).writers[step.p].artifact == s.writers[step.p].artifact
  {
  }

  lemma LookupAfterStep(w: World, s: State, step: Step, id: string)
    requires Sound(w) && Inv(w, s) && Enabled(w, s, step)
    requires Inv(w, Apply(w, s, step)) && Grows(s, Apply(w, s, step))
    ensures var t := Apply(w, s, step);
            || SplitGet(w, t, t, id) == SplitGet(w, s, s, id)
            || (&& step.WriteIndex? && id == s.writers[step.p].artifact.id && !Readable(w, s, id)
                && step.n == |Record(w, s.writers[step.p].artifact)|
                && SplitGet(w, t, t, id) == Some(s.writers[step.p].artifact))
  {
    var t := Apply(w, s, step);
    if ReadIndex(w, s, id).Some? {
      LookupIsStable(w, s, t, id);
    } else if ReadIndex(w, t, id).Some? {
      NewRecordIsWritten(w, s, step, id);
      GrowsReflexive(t);
      LookupIsStable(w, t, t, id);
    }
  }

  lemma GrowsReflexive(s: State)
    ensures Grows(s, s)
  {
    forall p | 0 <= p < |s.writers| ensures WriterGrows(s, s, p) {}
  }

  // ----- what a crash leaves behind -----

  /** A blob whose creator crashed before the last byte. */
  ghost predicate Abandoned(s: State, hash: string) {
    && hash in s.blobs && s.blobs[hash].owner < |s.writers|
    && var o := s.writers[s.blobs[hash].owner];
       o.stage == Crashed && s.blobs[hash].content != o.artifact.payload
  }

  /**
  An abandoned blob is never completed, and no append of that payload, then or later and however
  often repeated, succeeds.
  */
  lemma AbandonedBlobBlocksForGood(w: World, steps: seq<Step>, trace: seq<State>, i: nat, j: nat, hash: string, p: nat)
    requires Sound(w) && IsRun(w, steps, trace) && i <= j < |trace| && Abandoned(trace[i], hash)
    requires p < |trace[j].writers| && trace[j].writers[p].artifact.hash == hash
    ensures Abandoned(trace[j], hash) && trace[j].writers[p].stage != Succeeded
  {
    AbandonedStays(w, steps, trace, i, j, hash);
    RunKeeps(w, steps, trace, i, j);
    assert WriterInv(w, trace[j], p);
    SameDigestSamePayload(w, trace[j], p, trace[j].blobs[hash].owner);
  }

  /** Such blobs do come about: a writer may crash with any strict prefix of its payload written. */
  lemma AbandonmentHappens(w: World, a: Artifact, n: nat) returns (steps: seq<Step>, trace: seq<State>)
    requires a in w.pool && n < |a.payload|
    ensures IsRun(w, steps, trace) && Abandoned(trace[|steps|], a.hash)
    ensures trace[|steps|].blobs[a.hash] == File(0, a.payload[..n])
  {
    steps := [Begin(a), CreateBlob(0), WriteBlob(0, n), Crash(0)];
    var s1 := Apply(w, INITIAL, steps[0]);
    var s2 := Apply(w, s1, steps[1]);
    var s3 := Apply(w, s2, steps[2]);
    var s4 := Apply(w, s3, steps[3]);
    trace := [INITIAL, s1, s2, s3, s4];
    forall i | 0 <= i < |steps| ensures StepAt(w, steps, trace, i) {
      assert i == 0 || i == 1 || i == 2 || i == 3;
    }
    assert s4.blobs[a.hash].content == a.payload[..n] && |a.payload[..n]| == n;
  }

  lemma {:induction false} AbandonedStays(w: World, steps: seq<Step>, trace: seq<State>, i: nat, j: nat, hash: string)
    requires Sound(w) && IsRun(w, steps, trace) && i <= j < |trace| && Abandoned(trace[i], hash)
    ensures Abandoned(trace[j], hash)
    decreases j - i
  {
    if i < j {
      AbandonedStays(w, steps, trace, i, j - 1, hash);
      AbandonedNext(w, steps, trace, j - 1, hash);
    }
  }

  lemma AbandonedNext(w: World, steps: seq<Step>, trace: seq<State>, i: nat, hash: string)
    requires Sound(w) && IsRun(w, steps, trace) && i < |steps| && Abandoned(trace[i], hash)
    ensures Abandoned(trace[i + 1], hash)
  {
    RunKeeps(w, steps, trace, i, i);
    assert StepAt(w, steps, trace, i);
    AbandonedStep(w, trace[i], steps[i], hash);
  }

  /** Nobody writes to a file whose creator has crashed. */
  lemma CrashedBlobIsFrozen(w: World, s: State, step: Step, hash: string)
    requires Inv(w, s) && Enabled(w, s, step) && Abandoned(s, hash)
    ensures hash in Apply(w, s, step).blobs && Apply(w, s, step).blobs[hash] == s.blobs[hash]
  {
    if step.WriteBlob? {
      assert WriterInv(w, s, step.p);
    }
  }

  lemma AbandonedStep(w: World, s: State, step: Step, hash: string)
    requires Sound(w) && Inv(w, s) && Enabled(w, s, step) && Abandoned(s, hash)
    ensures Abandoned(Apply(w, s, step), hash)
  {
    CrashedBlobIsFrozen(w, s, step, hash);
    StepKeeps(w, s, step);
    assert WriterGrows(s, Apply(w, s, step), s.blobs[hash].owner);
  }
}
