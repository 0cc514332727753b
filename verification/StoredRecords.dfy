/**
Documents in the store and the records read from them.

Parsing is uninterpreted: a `Parser` carries one function per kind of record.  What is used of it
is that the same stored document always reads as the same record, that records come through their
constructors, and that no document is of two kinds.
*/
module StoredRecords {
  import opened Artifacts
  import opened ArtifactStore
  import opened AppendScript
  import opened EventHistory
  import opened Governance
  import L = RevocationLedger
  import C = CheckpointLog
  import G = WitnessGate

  /** Which record type accepts a document; each rejects the fields of every other. */
  datatype DocumentKind =
    | CorpusDocument
    | RevocationPolicyDocument | EventDocument | LedgerDocument
    | CheckpointPolicyDocument | CheckpointDocument | LogDocument
    | WitnessRegistryDocument | WitnessPolicyDocument | WitnessAttestationDocument
    | AdjudicatorRegistryDocument | AdjudicationPolicyDocument | AdjudicationDocument

  datatype Parser = Parser(
    kind: Artifact -> DocumentKind,
    event: Artifact -> Option<Event>,
    checkpoint: Artifact -> Option<C.Checkpoint>,
    attestation: Artifact -> Option<G.WitnessAttestation>,
    adjudication: Artifact -> Option<Adjudication>,
    ledger: Artifact -> Option<L.Ledger>,
    log: Artifact -> Option<C.Log>,
    revocationCorpus: Artifact -> Option<L.RevocationCorpus>,
    checkpointCorpus: Artifact -> Option<C.CheckpointCorpus>,
    witnessCorpus: Artifact -> Option<G.WitnessCorpus>,
    adjudicationCorpus: Artifact -> Option<G.AdjudicationCorpus>)
  {
    /** Parsing builds records through their constructors. */
    ghost predicate ThroughConstructors(s: C.Scheme) {
      && (forall a :: checkpoint(a).Some? ==> C.Constructed(s, checkpoint(a).value))
      && (forall a :: attestation(a).Some? ==> attestation(a).value.Constructed())
    }
  }

  function Unversioned(r: VersionedRef): Ref {
    Ref(r.id, r.hash)
  }

  function ArtifactRefs(artifacts: seq<Artifact>): (refs: seq<Ref>)
    ensures |refs| == |artifacts|
    ensures forall i :: 0 <= i < |refs| ==> refs[i] == artifacts[i].Reference()
  {
    seq(|artifacts|, i requires 0 <= i < |artifacts| => artifacts[i].Reference())
  }

  function EventRef(e: Event): Ref {
    e.reference
  }

  function AttestationRef(a: G.WitnessAttestation): Ref {
    a.reference
  }

  function AdjudicationRef(a: Adjudication): Ref {
    a.reference
  }

  // ----- snapshots: the caller holds the expected bytes -----

  method LoadAll(store: FileSystemArtifactStore, expected: seq<Artifact>) returns (evidence: Option<seq<Artifact>>)
    ensures evidence.Some? <==> AllStored(store.Readable(), expected)
    ensures evidence.Some? ==> evidence.value == expected
  {
    var loaded: seq<Artifact> := [];
    for k := 0 to |expected|
      invariant loaded == expected[..k]
      invariant AllStored(store.Readable(), expected[..k])
    {
      var r := store.Get(expected[k].id, Some(expected[k].hash));
      if r.Missing? || r.artifact.payload != expected[k].payload {
        assert !Stored(store.Readable(), expected[k]);
        return None;
      }
      assert r.artifact == expected[k];
      loaded := loaded + [r.artifact];
    }
    assert expected[..|expected|] == expected;
    evidence := Some(loaded);
  }

  // ----- populations: the caller holds references and gets records -----

  /** The store holds, under this reference, a document that reads as this record of that reference. */
  ghost predicate ReadsAs<R>(v: View, parse: Artifact -> Option<R>, refOf: R -> Ref, ref: Ref, record: R) {
    ref.id in v && v[ref.id].hash == ref.hash && parse(v[ref.id]) == Some(record) && refOf(record) == ref
  }

  ghost predicate Read<R>(v: View, parse: Artifact -> Option<R>, refOf: R -> Ref, refs: seq<Ref>, records: seq<R>) {
    |records| == |refs| && forall k :: 0 <= k < |refs| ==> ReadsAs(v, parse, refOf, refs[k], records[k])
  }

  /** Whoever reads a population in the same store reads the same records. */
  lemma ReadIsUnique<R>(v: View, parse: Artifact -> Option<R>, refOf: R -> Ref, refs: seq<Ref>, xs: seq<R>, ys: seq<R>)
    requires Read(v, parse, refOf, refs, xs) && Read(v, parse, refOf, refs, ys)
    ensures xs == ys
  {
    forall k | 0 <= k < |refs| ensures xs[k] == ys[k] {
      assert ReadsAs(v, parse, refOf, refs[k], xs[k]) && ReadsAs(v, parse, refOf, refs[k], ys[k]);
    }
  }

  /** What was read once is read again, unchanged, in every later store. */
  lemma ReadStays<R>(v: View, u: View, parse: Artifact -> Option<R>, refOf: R -> Ref, refs: seq<Ref>, records: seq<R>)
    requires Read(v, parse, refOf, refs, records) && Extends(v, u)
    ensures Read(u, parse, refOf, refs, records)
  {
    forall k | 0 <= k < |refs| ensures ReadsAs(u, parse, refOf, refs[k], records[k]) {
      assert ReadsAs(v, parse, refOf, refs[k], records[k]);
    }
  }

  /** Reads a population reference by reference; fails exactly if it cannot be read. */
  method LoadRecords<R(==)>(store: FileSystemArtifactStore, parse: Artifact -> Option<R>, refOf: R -> Ref, refs: seq<Ref>)
    returns (records: Option<seq<R>>)
    ensures records.Some? ==> Read(store.Readable(), parse, refOf, refs, records.value)
    ensures records.None? ==> forall other :: !Read(store.Readable(), parse, refOf, refs, other)
  {
    var loaded: seq<R> := [];
    for k := 0 to |refs|
      invariant |loaded| == k
      invariant forall j :: 0 <= j < k ==> ReadsAs(store.Readable(), parse, refOf, refs[j], loaded[j])
    {
      var r := store.Get(refs[k].id, Some(refs[k].hash));
      var record := if r.Found? then parse(r.artifact) else None;
      if record.None? || refOf(record.value) != refs[k] {
        assert forall x :: !ReadsAs(store.Readable(), parse, refOf, refs[k], x);
        return None;
      }
      loaded := loaded + [record.value];
    }
    records := Some(loaded);
  }

  // ----- references alone -----

  /** Something with this reference's hash is stored under its ID. */
  ghost predicate Held(v: View, ref: Ref) {
    ref.id in v && v[ref.id].hash == ref.hash
  }

  ghost predicate AllHeld(v: View, refs: seq<Ref>) {
    forall k :: 0 <= k < |refs| ==> Held(v, refs[k])
  }

  /** Whatever was read once is still held under its reference later. */
  lemma ReadIsHeld<R>(v: View, u: View, parse: Artifact -> Option<R>, refOf: R -> Ref, refs: seq<Ref>, records: seq<R>)
    requires Read(v, parse, refOf, refs, records) && Extends(v, u)
    ensures AllHeld(u, refs)
  {
    forall k | 0 <= k < |refs| ensures Held(u, refs[k]) {
      assert ReadsAs(v, parse, refOf, refs[k], records[k]);
    }
  }

  method FindAll(store: FileSystemArtifactStore, refs: seq<Ref>) returns (ok: bool)
    ensures ok <==> AllHeld(store.Readable(), refs)
  {
    for k := 0 to |refs|
      invariant forall j :: 0 <= j < k ==> Held(store.Readable(), refs[j])
    {
      var r := store.Get(refs[k].id, Some(refs[k].hash));
      if r.Missing? {
        assert !Held(store.Readable(), refs[k]);
        return false;
      }
    }
    ok := true;
  }
}
