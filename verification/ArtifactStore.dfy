/**
The append-only file-system store, used by one process at a time.

Two directories are two maps: content-addressed blobs, and an immutable index keyed by a
digest of the artifact ID.  A `Fault` is the environment's choice of where an append stops
(a crash, a full disk); it may leave a torn file behind.  No digest is assumed injective.
*/
module ArtifactStore {
  import opened Artifacts

  datatype StoreError = NotFound | Conflict | Integrity

  datatype IndexFile = Complete(ref: Ref) | Torn

  datatype Disk = Disk(blobs: map<string, Bytes>, index: map<string, IndexFile>)

  /** Where an append stops.  A fault inside a write fires only if that file is being created. */
  datatype Fault = NoFault | InBlobWrite(written: nat) | BeforeIndex | InIndexWrite | BeforeVerify

  datatype AppendResult = Done(ref: Ref) | Failed(error: StoreError) | Interrupted

  datatype Lookup = Found(artifact: Artifact) | Missing(error: StoreError)

  datatype Payload = Intact(bytes: Bytes) | Unreadable(error: StoreError)

  const EMPTY_DISK: Disk := Disk(map[], map[])

  function Truncate(payload: Bytes, n: nat): Bytes {
    if n <= |payload| then payload[..n] else payload
  }

  // ----- one lookup and one append, as functions of the disk -----

  function ReadPayload(h: Hashing, d: Disk, hash: string): Payload {
    if hash !in d.blobs then Unreadable(NotFound)
    else if h.blob(d.blobs[hash]) != hash then Unreadable(Integrity)
    else Intact(d.blobs[hash])
  }

  function GetFrom(h: Hashing, d: Disk, id: string, expected: Option<string>): Lookup {
    var k := h.key(id);
    if k !in d.index then Missing(NotFound)
    else if d.index[k].Torn? then Missing(Integrity)
    else
      var ref := d.index[k].ref;
      if ref.id != id then Missing(Integrity)
      else if expected.Some? && ref.hash != expected.value then Missing(Integrity)
      else
        match ReadPayload(h, d, ref.hash)
        case Unreadable(e) => Missing(e)
        case Intact(bytes) => Found(Artifact(ref.id, bytes, ref.hash))
  }

  /** The blob stage: the disk after it, and the reason it did not finish, if any. */
  function BlobStage(d: Disk, a: Artifact, fault: Fault): (Disk, Option<AppendResult>) {
    if a.hash in d.blobs then
      (d, if d.blobs[a.hash] == a.payload then None else Some(Failed(Integrity)))
    else if fault.InBlobWrite? then
      (d.(blobs := d.blobs[a.hash := Truncate(a.payload, fault.written)]), Some(Interrupted))
    else
      (d.(blobs := d.blobs[a.hash := a.payload]), None)
  }

  function IndexStage(h: Hashing, d: Disk, a: Artifact, fault: Fault): (Disk, Option<AppendResult>) {
    var k := h.key(a.id);
    if k in d.index then
      (d,
       if d.index[k].Torn? || d.index[k].ref.id != a.id then Some(Failed(Integrity))
       else if d.index[k].ref.hash != a.hash then Some(Failed(Conflict))
       else None)
    else if fault.InIndexWrite? then
      (d.(index := d.index[k := Torn]), Some(Interrupted))
    else
      (d.(index := d.index[k := Complete(a.Reference())]), None)
  }

  function AppendTo(h: Hashing, d: Disk, a: Artifact, fault: Fault): (Disk, AppendResult) {
    var (d1, stop1) := BlobStage(d, a, fault);
    if stop1.Some? then (d1, stop1.value)
    else if fault.BeforeIndex? then (d1, Interrupted)
    else
      var (d2, stop2) := IndexStage(h, d1, a, fault);
      if stop2.Some? then (d2, stop2.value)
      else if fault.BeforeVerify? then (d2, Interrupted)
      else
        match GetFrom(h, d2, a.id, Some(a.hash))
        case Missing(e) => (d2, Failed(e))
        case Found(_) => (d2, Done(a.Reference()))
  }

  // ----- the abstract store: an append-only map from IDs to artifacts -----

  type View = map<string, Artifact>

  ghost predicate Valid(h: Hashing, d: Disk) {
    forall k :: k in d.index && d.index[k].Complete? ==>
      var ref := d.index[k].ref;
      h.key(ref.id) == k && ref.hash in d.blobs && h.blob(d.blobs[ref.hash]) == ref.hash
  }

  ghost predicate Bound(h: Hashing, d: Disk, id: string) {
    GetFrom(h, d, id, None).Found?
  }

  ghost function IndexedIds(d: Disk): set<string> {
    set k | k in d.index && d.index[k].Complete? :: d.index[k].ref.id
  }

  /** Every artifact a reader can retrieve. */
  ghost function ViewOf(h: Hashing, d: Disk): View {
    map id | id in IndexedIds(d) && Bound(h, d, id) :: GetFrom(h, d, id, None).artifact
  }

  /** Every binding is of an artifact of that ID. */
  ghost predicate Keyed(v: View) {
    forall id :: id in v ==> v[id].id == id
  }

  lemma ViewsAreKeyed(h: Hashing, d: Disk)
    ensures Keyed(ViewOf(h, d))
  {
  }

  /** The view holds exactly what `Get` retrieves, hash expectations included. */
  lemma ViewIsGet(h: Hashing, d: Disk, id: string, expected: Option<string>)
    ensures id in ViewOf(h, d) <==> Bound(h, d, id)
    ensures GetFrom(h, d, id, expected).Found? <==>
            id in ViewOf(h, d) && (expected.Some? ==> ViewOf(h, d)[id].hash == expected.value)
    ensures GetFrom(h, d, id, expected).Found? ==>
            GetFrom(h, d, id, expected).artifact == ViewOf(h, d)[id] && WellFormed(h, ViewOf(h, d)[id])
  {
    if Bound(h, d, id) {
      var k := h.key(id);
      assert d.index[k].Complete? && d.index[k].ref.id == id;
      assert id in IndexedIds(d);
    }
  }

  // ----- one append refines one insertion -----

  /** Nothing is ever overwritten: `d` keeps its blobs and index files in `e`. */
  ghost predicate Grows(d: Disk, e: Disk) {
    && (forall x :: x in d.blobs ==> x in e.blobs && e.blobs[x] == d.blobs[x])
    && (forall k :: k in d.index ==> k in e.index && e.index[k] == d.index[k])
  }

  /** What a lookup sees after blobs were added and at most one index file was created. */
  lemma LookupAfterGrowth(h: Hashing, d: Disk, e: Disk, id: string)
    requires Valid(h, d) && Grows(d, e)
    ensures h.key(id) in d.index || h.key(id) !in e.index ==>
              GetFrom(h, e, id, None).Found? == GetFrom(h, d, id, None).Found?
    ensures GetFrom(h, d, id, None).Found? ==> GetFrom(h, e, id, None) == GetFrom(h, d, id, None)
  {
  }

  lemma ViewAfterGrowth(h: Hashing, d: Disk, e: Disk, a: Artifact)
    requires Valid(h, d) && Valid(h, e) && Grows(d, e) && WellFormed(h, a)
    requires e.index.Keys <= d.index.Keys + {h.key(a.id)}
    requires h.key(a.id) in d.index || (h.key(a.id) in e.index ==> e.index[h.key(a.id)].Torn?)
    ensures ViewOf(h, e) == ViewOf(h, d)
  {
    forall id ensures id in ViewOf(h, e) <==> id in ViewOf(h, d)
      ensures id in ViewOf(h, d) ==> ViewOf(h, e)[id] == ViewOf(h, d)[id]
    {
      LookupAfterGrowth(h, d, e, id);
      ViewIsGet(h, d, id, None);
      ViewIsGet(h, e, id, None);
    }
  }

  lemma ViewAfterBinding(h: Hashing, d: Disk, e: Disk, a: Artifact)
    requires Valid(h, d) && Valid(h, e) && Grows(d, e) && WellFormed(h, a)
    requires h.key(a.id) !in d.index && e.index == d.index[h.key(a.id) := Complete(a.Reference())]
    requires a.hash in e.blobs && e.blobs[a.hash] == a.payload
    ensures a.id !in ViewOf(h, d) && ViewOf(h, e) == ViewOf(h, d)[a.id := a]
    ensures GetFrom(h, e, a.id, Some(a.hash)) == Found(a)
  {
    forall id ensures id in ViewOf(h, e) <==> id in ViewOf(h, d)[a.id := a]
      ensures id in ViewOf(h, e) ==> ViewOf(h, e)[id] == ViewOf(h, d)[a.id := a][id]
    {
      LookupAfterGrowth(h, d, e, id);
      ViewIsGet(h, d, id, None);
      ViewIsGet(h, e, id, None);
    }
  }

  lemma BlobStageShape(h: Hashing, d: Disk, a: Artifact, fault: Fault)
    requires Valid(h, d) && WellFormed(h, a)
    ensures var (e, stop) := BlobStage(d, a, fault);
            && Valid(h, e) && Grows(d, e) && e.index == d.index
            && (stop.Some? ==> !stop.value.Done?)
            && (stop.None? ==> a.hash in e.blobs && e.blobs[a.hash] == a.payload)
  {
  }

  /** The three shapes the index stage leaves the index in. */
  lemma IndexStageShape(h: Hashing, d: Disk, a: Artifact, fault: Fault)
    requires Valid(h, d) && WellFormed(h, a) && a.hash in d.blobs && d.blobs[a.hash] == a.payload
    ensures var (e, stop) := IndexStage(h, d, a, fault);
            var k := h.key(a.id);
            && Valid(h, e) && Grows(d, e) && e.blobs == d.blobs
            && (stop.Some? ==> !stop.value.Done?)
            && (stop.None? ==> k in e.index && e.index[k] == Complete(a.Reference()))
            && (|| e == d
                || (k !in d.index && e.index == d.index[k := Torn] && stop == Some(Interrupted))
                || (k !in d.index && e.index == d.index[k := Complete(a.Reference())] && stop.None?))
  {
  }

  /** The shapes an append leaves the index in, with the result each allows. */
  lemma AppendShape(h: Hashing, d: Disk, a: Artifact, fault: Fault)
    requires Valid(h, d) && WellFormed(h, a)
    ensures var (e, r) := AppendTo(h, d, a, fault);
            var k := h.key(a.id);
            && Valid(h, e) && Grows(d, e)
            && (r.Done? ==> r.ref == a.Reference() && a.hash in e.blobs && e.blobs[a.hash] == a.payload
                            && k in e.index && e.index[k] == Complete(a.Reference()))
            && (|| (e.index == d.index && (r.Done? ==> k in d.index))
                || (k !in d.index && e.index == d.index[k := Torn] && r.Interrupted?)
                || (k !in d.index && e.index == d.index[k := Complete(a.Reference())] && !r.Failed?
                    && a.hash in e.blobs && e.blobs[a.hash] == a.payload))
  {
    BlobStageShape(h, d, a, fault);
    var (d1, stop) := BlobStage(d, a, fault);
    if stop.None? {
      IndexStageShape(h, d1, a, fault);
      GrowsOnwards(d, d1, IndexStage(h, d1, a, fault).0);
    }
  }

  lemma GrowsOnwards(d: Disk, e: Disk, f: Disk)
    requires Grows(d, e) && Grows(e, f)
    ensures Grows(d, f)
  {
  }

  /**
  The refinement step.  A successful append binds exactly its own ID; a refused one changes
  no lookup; an interrupted one changes no lookup or has already bound its own, unused, ID.
  */
  lemma AppendRefinesInsertion(h: Hashing, d: Disk, a: Artifact, fault: Fault)
    requires Valid(h, d) && WellFormed(h, a)
    ensures var (e, r) := AppendTo(h, d, a, fault);
            && Valid(h, e) && Grows(d, e)
            && (r.Done? ==> r.ref == a.Reference() && ViewOf(h, e) == ViewOf(h, d)[a.id := a]
                            && (a.id in ViewOf(h, d) ==> ViewOf(h, d)[a.id] == a))
            && (r.Failed? ==> ViewOf(h, e) == ViewOf(h, d))
            && (r.Interrupted? ==> ViewOf(h, e) == ViewOf(h, d)
                                   || (a.id !in ViewOf(h, d) && ViewOf(h, e) == ViewOf(h, d)[a.id := a]))
  {
    var (e, r) := AppendTo(h, d, a, fault);
    var k := h.key(a.id);
    AppendShape(h, d, a, fault);
    if k !in d.index && k in e.index && e.index[k].Complete? {
      ViewAfterBinding(h, d, e, a);
    } else {
      ViewAfterGrowth(h, d, e, a);
      if r.Done? {
        LookupOfComplete(h, e, a);
      }
    }
  }

  lemma LookupOfComplete(h: Hashing, d: Disk, a: Artifact)
    requires Valid(h, d) && WellFormed(h, a)
    requires a.hash in d.blobs && d.blobs[a.hash] == a.payload
    requires h.key(a.id) in d.index && d.index[h.key(a.id)] == Complete(a.Reference())
    ensures a.id in ViewOf(h, d) && ViewOf(h, d)[a.id] == a
  {
    ViewIsGet(h, d, a.id, None);
  }

  /** The exact condition for an undisturbed append: nothing different, and nothing torn, in the way. */
  ghost predicate Admits(h: Hashing, d: Disk, a: Artifact) {
    && (a.hash in d.blobs ==> d.blobs[a.hash] == a.payload)
    && (h.key(a.id) in d.index ==> d.index[h.key(a.id)] == Complete(a.Reference()))
  }

  lemma AppendSucceedsExactly(h: Hashing, d: Disk, a: Artifact)
    requires Valid(h, d) && WellFormed(h, a)
    ensures AppendTo(h, d, a, NoFault).1.Done? <==> Admits(h, d, a)
    ensures AppendTo(h, d, a, NoFault).1 == Failed(Conflict) <==>
            && (a.hash in d.blobs ==> d.blobs[a.hash] == a.payload)
            && a.id in ViewOf(h, d) && ViewOf(h, d)[a.id].hash != a.hash
    ensures a.id in ViewOf(h, d) && ViewOf(h, d)[a.id] == a ==> AppendTo(h, d, a, NoFault) == (d, Done(a.Reference()))
  {
    ViewIsGet(h, d, a.id, None);
  }

  /** Where this fault lies on the way of this append, if the append gets that far. */
  predicate Strikes(h: Hashing, d: Disk, a: Artifact, fault: Fault) {
    var blobPasses := a.hash in d.blobs ==> d.blobs[a.hash] == a.payload;
    var indexPasses := h.key(a.id) in d.index ==> d.index[h.key(a.id)] == Complete(a.Reference());
    match fault
    case NoFault => false
    case InBlobWrite(_) => a.hash !in d.blobs
    case BeforeIndex => blobPasses
    case InIndexWrite => blobPasses && h.key(a.id) !in d.index
    case BeforeVerify => blobPasses && indexPasses
  }

  /**
  The result of every append: interrupted exactly if the fault strikes, and otherwise what the
  undisturbed append gives.  It is never reported as not found.
  */
  lemma AppendResultsExactly(h: Hashing, d: Disk, a: Artifact, fault: Fault)
    requires Valid(h, d) && WellFormed(h, a)
    ensures AppendTo(h, d, a, fault).1.Interrupted? <==> Strikes(h, d, a, fault)
    ensures !Strikes(h, d, a, fault) ==> AppendTo(h, d, a, fault) == AppendTo(h, d, a, NoFault)
    ensures AppendTo(h, d, a, fault).1 != Failed(NotFound)
  {
    AppendShape(h, d, a, NoFault);
    var (d1, stop) := BlobStage(d, a, NoFault);
    if stop.None? {
      BlobStageShape(h, d, a, NoFault);
      IndexStageShape(h, d1, a, NoFault);
    }
  }

  /** The index file says that `id` is stored, with the expected hash. */
  predicate Points(h: Hashing, d: Disk, id: string, expected: Option<string>) {
    var k := h.key(id);
    && k in d.index && d.index[k].Complete? && d.index[k].ref.id == id
    && (expected.Some? ==> d.index[k].ref.hash == expected.value)
  }

  /**
  Why a lookup fails, on any disk, corrupt ones included: a file is missing, or the index file is
  torn, another ID's or of another hash, or the blob's bytes do not have the digest they are named by.
  No disk that appends leave has a missing or wrong blob.
  */
  lemma LookupFailsExactly(h: Hashing, d: Disk, id: string, expected: Option<string>)
    ensures var k, r := h.key(id), GetFrom(h, d, id, expected);
            && (r == Missing(NotFound) <==>
                  k !in d.index || (Points(h, d, id, expected) && d.index[k].ref.hash !in d.blobs))
            && (r == Missing(Integrity) <==>
                  && k in d.index
                  && (Points(h, d, id, expected) ==>
                        d.index[k].ref.hash in d.blobs && h.blob(d.blobs[d.index[k].ref.hash]) != d.index[k].ref.hash))
            && r != Missing(Conflict)
    ensures Valid(h, d) ==> (GetFrom(h, d, id, expected).Found? <==> Points(h, d, id, expected))
  {
  }

  /** A file created by a stopped append is never repaired: what blocked an append blocks it for good. */
  lemma BlockedForever(h: Hashing, d: Disk, e: Disk, a: Artifact)
    requires Valid(h, d) && Valid(h, e) && WellFormed(h, a) && Grows(d, e)
    requires !Admits(h, d, a)
    ensures !Admits(h, e, a) && AppendTo(h, e, a, NoFault).1.Failed?
  {
    AppendSucceedsExactly(h, e, a);
  }

  /** Whether this fault tears a file when it stops this append on this disk. */
  predicate Tears(h: Hashing, d: Disk, a: Artifact, fault: Fault) {
    match fault
    case InBlobWrite(written) => a.hash !in d.blobs && written < |a.payload|
    case InIndexWrite => h.key(a.id) !in d.index
    case _ => false
  }

  /**
  The documentation promises that an identical repeat is idempotent.  After a stop that holds
  exactly when the stop tore no file; otherwise no repeat of that artifact can ever succeed.
  */
  lemma RetryAfterStop(h: Hashing, d: Disk, a: Artifact, fault: Fault)
    requires Valid(h, d) && WellFormed(h, a) && Admits(h, d, a)
    ensures var (e, r) := AppendTo(h, d, a, fault);
            && (AppendTo(h, e, a, NoFault).1.Done? <==> !Tears(h, d, a, fault))
            && (Tears(h, d, a, fault) ==>
                  r.Interrupted? && forall later :: Valid(h, later) && Grows(e, later) ==>
                    AppendTo(h, later, a, NoFault).1.Failed?)
            && (!Tears(h, d, a, fault) ==>
                  var (f, again) := AppendTo(h, e, a, NoFault);
                  ViewOf(h, f) == ViewOf(h, d)[a.id := a])
  {
    var (e, r) := AppendTo(h, d, a, fault);
    AppendRefinesInsertion(h, d, a, fault);
    AppendSucceedsExactly(h, e, a);
    AppendRefinesInsertion(h, e, a, NoFault);
    if Tears(h, d, a, fault) {
      forall later | Valid(h, later) && Grows(e, later)
        ensures AppendTo(h, later, a, NoFault).1.Failed?
      {
        BlockedForever(h, e, later, a);
      }
    }
  }

  /** A concrete input on which an identical repeat fails: the first write stopped at zero bytes. */
  lemma RepeatIsNotAlwaysIdempotent(h: Hashing, id: string)
    ensures var a := MakeArtifact(h, id, [0]);
            var (e, _) := AppendTo(h, EMPTY_DISK, a, InBlobWrite(0));
            AppendTo(h, e, a, NoFault).1 == Failed(Integrity)
  {
  }

  // ----- whole runs -----

  datatype Request = Request(artifact: Artifact, fault: Fault)

  ghost function Run(h: Hashing, d: Disk, requests: seq<Request>): Disk
    decreases |requests|
  {
    if requests == [] then d
    else Run(h, AppendTo(h, d, requests[0].artifact, requests[0].fault).0, requests[1..])
  }

  ghost predicate AllWellFormed(h: Hashing, requests: seq<Request>) {
    forall i :: 0 <= i < |requests| ==> WellFormed(h, requests[i].artifact)
  }

  /** `v` is `u` with more bindings and every old one unchanged. */
  ghost predicate Extends(u: View, v: View) {
    u.Keys <= v.Keys && forall id :: id in u ==> v[id] == u[id]
  }

  /** Over any run, bindings only accumulate, and each one is a requested artifact. */
  lemma {:induction false} RunIsAppendOnly(h: Hashing, d: Disk, requests: seq<Request>)
    requires Valid(h, d) && AllWellFormed(h, requests)
    ensures var e := Run(h, d, requests);
            && Valid(h, e) && Grows(d, e) && Extends(ViewOf(h, d), ViewOf(h, e))
            && forall id :: id in ViewOf(h, e) && id !in ViewOf(h, d) ==>
                 exists i :: 0 <= i < |requests| && requests[i].artifact == ViewOf(h, e)[id]
    decreases |requests|
  {
    if requests != [] {
      var first := requests[0];
      var d1 := AppendTo(h, d, first.artifact, first.fault).0;
      AppendRefinesInsertion(h, d, first.artifact, first.fault);
      RunIsAppendOnly(h, d1, requests[1..]);
      GrowsOnwards(d, d1, Run(h, d, requests));
      BindingsAreRequested(ViewOf(h, d), ViewOf(h, d1), ViewOf(h, Run(h, d, requests)), requests);
    }
  }

  lemma BindingsAreRequested(before: View, first: View, after: View, requests: seq<Request>)
    requires requests != [] && Extends(before, first) && Extends(first, after)
    requires var a := requests[0].artifact;
             first == before || first == before[a.id := a]
    requires forall id :: id in after && id !in first ==>
               exists i :: 0 <= i < |requests[1..]| && requests[1..][i].artifact == after[id]
    ensures Extends(before, after)
    ensures forall id :: id in after && id !in before ==>
              exists i :: 0 <= i < |requests| && requests[i].artifact == after[id]
  {
    forall id | id in after && id !in before
      ensures exists i :: 0 <= i < |requests| && requests[i].artifact == after[id]
    {
      if id in first {
        assert requests[0].artifact == after[id];
      } else {
        var i :| 0 <= i < |requests[1..]| && requests[1..][i].artifact == after[id];
        assert requests[i + 1].artifact == after[id];
      }
    }
  }

  /** An append that once succeeded is retrieved, bytes and hash, after every later run. */
  lemma BindingSurvivesEveryRun(h: Hashing, d: Disk, a: Artifact, fault: Fault, later: seq<Request>)
    requires Valid(h, d) && WellFormed(h, a) && AllWellFormed(h, later)
    requires AppendTo(h, d, a, fault).1.Done?
    ensures var e := Run(h, AppendTo(h, d, a, fault).0, later);
            && GetFrom(h, e, a.id, Some(a.hash)) == Found(a)
            && AppendTo(h, e, a, NoFault) == (e, Done(a.Reference()))
  {
    var d1 := AppendTo(h, d, a, fault).0;
    var e := Run(h, d1, later);
    AppendRefinesInsertion(h, d, a, fault);
    RunIsAppendOnly(h, d1, later);
    ViewIsGet(h, e, a.id, Some(a.hash));
    AppendSucceedsExactly(h, e, a);
  }

  // ----- the store object -----

  class FileSystemArtifactStore {
    const hashing: Hashing
    var blobs: map<string, Bytes>
    var index: map<string, IndexFile>

    constructor (hashing: Hashing)
      ensures this.hashing == hashing && Contents() == EMPTY_DISK && Consistent() && Readable() == map[]
    {
      this.hashing := hashing;
      blobs, index := map[], map[];
    }

    function Contents(): Disk
      reads this
    {
      Disk(blobs, index)
    }

    ghost predicate Consistent()
      reads this
    {
      Valid(hashing, Contents())
    }

    ghost function Readable(): View
      reads this
    {
      ViewOf(hashing, Contents())
    }

    /** Exclusive create in the blob directory.  `stopped` means the write began and did not return. */
    method WriteBlobExclusive(path: string, payload: Bytes, fault: Fault) returns (created: bool, stopped: bool)
      modifies this`blobs
      ensures created || stopped <==> path !in old(blobs)
      ensures stopped <==> path !in old(blobs) && fault.InBlobWrite?
      ensures !created && !stopped ==> blobs == old(blobs)
      ensures created ==> !stopped && blobs == old(blobs)[path := payload]
      ensures stopped ==> blobs == old(blobs)[path := Truncate(payload, fault.written)]
    {
      created, stopped := false, false;
      if path !in blobs {
        if fault.InBlobWrite? {
          blobs := blobs[path := Truncate(payload, fault.written)];
          stopped := true;
        } else {
          blobs := blobs[path := payload];
          created := true;
        }
      }
    }

    method WriteIndexExclusive(path: string, ref: Ref, fault: Fault) returns (created: bool, stopped: bool)
      modifies this`index
      ensures created || stopped <==> path !in old(index)
      ensures stopped <==> path !in old(index) && fault.InIndexWrite?
      ensures !created && !stopped ==> index == old(index)
      ensures created ==> !stopped && index == old(index)[path := Complete(ref)]
      ensures stopped ==> index == old(index)[path := Torn]
    {
      created, stopped := false, false;
      if path !in index {
        if fault.InIndexWrite? {
          index := index[path := Torn];
          stopped := true;
        } else {
          index := index[path := Complete(ref)];
          created := true;
        }
      }
    }

    /** The stages in order: blob, index, verification. */
    method RunStages(a: Artifact, fault: Fault) returns (r: AppendResult)
      modifies this
      ensures (Contents(), r) == AppendTo(hashing, old(Contents()), a, fault)
    {
      var reference := a.Reference();
      var created, stopped := WriteBlobExclusive(reference.hash, a.payload, fault);
      if stopped {
        return Interrupted;
      }
      if !created && blobs[reference.hash] != a.payload {
        return Failed(Integrity);
      }
      if fault.BeforeIndex? {
        return Interrupted;
      }
      var indexPath := hashing.key(reference.id);
      created, stopped := WriteIndexExclusive(indexPath, reference, fault);
      if stopped {
        return Interrupted;
      }
      if !created {
        var existing := index[indexPath];
        if existing.Torn? || existing.ref.id != reference.id {
          return Failed(Integrity);
        }
        if existing.ref.hash != reference.hash {
          return Failed(Conflict);
        }
      }
      if fault.BeforeVerify? {
        return Interrupted;
      }
      var check := Get(reference.id, Some(reference.hash));
      r := if check.Found? then Done(reference) else Failed(check.error);
    }

    method Append(a: Artifact, fault: Fault) returns (r: AppendResult)
      requires Consistent() && WellFormed(hashing, a)
      modifies this
      ensures Consistent() && Grows(old(Contents()), Contents())
      ensures (Contents(), r) == AppendTo(hashing, old(Contents()), a, fault)
      ensures r.Done? ==> Readable() == old(Readable())[a.id := a]
                          && (a.id in old(Readable()) ==> old(Readable())[a.id] == a)
      ensures r.Failed? ==> Readable() == old(Readable())
      ensures r.Interrupted? ==> Readable() == old(Readable())
                                 || (a.id !in old(Readable()) && Readable() == old(Readable())[a.id := a])
    {
      AppendRefinesInsertion(hashing, Contents(), a, fault);
      r := RunStages(a, fault);
    }

    method Get(id: string, expected: Option<string>) returns (r: Lookup)
      ensures r == GetFrom(hashing, Contents(), id, expected)
      ensures r.Found? <==> id in Readable() && (expected.Some? ==> Readable()[id].hash == expected.value)
      ensures r.Found? ==> r.artifact == Readable()[id] && WellFormed(hashing, r.artifact)
    {
      ViewIsGet(hashing, Contents(), id, expected);
      var indexPath := hashing.key(id);
      if indexPath !in index {
        return Missing(NotFound);
      }
      var file := index[indexPath];
      if file.Torn? || file.ref.id != id || (expected.Some? && file.ref.hash != expected.value) {
        return Missing(Integrity);
      }
      var blob := ReadPayload(hashing, Contents(), file.ref.hash);
      r := if blob.Intact? then Found(Artifact(id, blob.bytes, file.ref.hash)) else Missing(blob.error);
    }
  }
}
