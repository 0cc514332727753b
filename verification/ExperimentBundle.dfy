/**
Experiment bundles: every artifact of a run, then one manifest naming them all.

The manifest is the completion marker.  It can only be retrieved as a bundle if every artifact it
names can be, and a persisted bundle loads back, manifest for manifest, in every later store.
*/
module ExperimentBundle {
  import opened Artifacts
  import opened ArtifactStore
  import opened AppendScript
  import opened Sequences

  datatype BundleRef = BundleRef(role: string, artifact: Ref)

  datatype Manifest = Manifest(bundleId: string, runRecordId: string, artifacts: seq<BundleRef>) {
    function Roles(): (roles: seq<string>)
      ensures |roles| == |artifacts|
      ensures forall i :: 0 <= i < |roles| ==> roles[i] == artifacts[i].role
    {
      seq(|artifacts|, i requires 0 <= i < |artifacts| => artifacts[i].role)
    }
  }

  const REQUIRED_ROLES: set<string> := {"plan", "candidate-eligibility", "environment", "comparison", "run-record"}

  const RESULT_PREFIX := "result:"

  predicate IsResultRole(role: string) {
    RESULT_PREFIX <= role
  }

  /** The manifest constructor's checks; parsing a stored manifest goes through them too. */
  ghost predicate Constructed(m: Manifest) {
    && Distinct(m.Roles())
    && (forall r :: r in REQUIRED_ROLES ==> r in m.Roles())
    && exists i, j :: 0 <= i < j < |m.Roles()| && IsResultRole(m.Roles()[i]) && IsResultRole(m.Roles()[j])
  }

  datatype Bundle = Bundle(
    plan: Artifact, eligibility: Artifact, environment: Artifact, results: seq<Artifact>, comparison: Artifact,
    runRecordId: string, runRecord: Artifact)

  // ----- roles -----

  function Digit(d: nat): char
    requires d < 10
  {
    "0123456789"[d]
  }

  function Decimal(n: nat): (s: string)
    ensures s != []
  {
    if n < 10 then [Digit(n)] else Decimal(n / 10) + [Digit(n % 10)]
  }

  function ValueOf(s: string): int {
    if s == [] then 0 else 10 * ValueOf(s[..|s| - 1]) + (s[|s| - 1] as int - '0' as int)
  }

  /** The numeral is read back as the number, so no two numbers share one. */
  lemma {:induction false} DecimalReadsBack(n: nat)
    ensures ValueOf(Decimal(n)) == n
  {
    var s := Decimal(n);
    if n < 10 {
      assert s[..0] == [];
    } else {
      DecimalReadsBack(n / 10);
      assert s[..|s| - 1] == Decimal(n / 10);
    }
    DigitIsRead(n % 10);
  }

  lemma DigitIsRead(d: nat)
    requires d < 10
    ensures Digit(d) as int - '0' as int == d
  {
  }

  function ResultRole(i: nat): (role: string)
    ensures IsResultRole(role)
  {
    RESULT_PREFIX + Decimal(i)
  }

  lemma ResultRolesDiffer(i: nat, j: nat)
    ensures ResultRole(i) == ResultRole(j) <==> i == j
    ensures ResultRole(i) !in REQUIRED_ROLES
  {
    assert ResultRole(i)[|RESULT_PREFIX|..] == Decimal(i) && ResultRole(j)[|RESULT_PREFIX|..] == Decimal(j);
    DecimalReadsBack(i);
    DecimalReadsBack(j);
    assert ResultRole(i)[0] == 'r' && ResultRole(i)[1] == 'e';
  }

  // ----- what is written -----

  function Members(b: Bundle): seq<Artifact> {
    [b.plan, b.eligibility, b.environment] + b.results + [b.comparison, b.runRecord]
  }

  function RoleOf(b: Bundle, k: nat): string
    requires k < |b.results| + 5
  {
    if k == 0 then "plan"
    else if k == 1 then "candidate-eligibility"
    else if k == 2 then "environment"
    else if k < |b.results| + 3 then ResultRole(k - 3)
    else if k == |b.results| + 3 then "comparison"
    else "run-record"
  }

  function ManifestOf(b: Bundle): (m: Manifest)
    ensures |m.artifacts| == |b.results| + 5
  {
    Manifest(b.runRecordId + ":artifact-bundle", b.runRecordId,
             seq(|b.results| + 5, k requires 0 <= k < |b.results| + 5 => BundleRef(RoleOf(b, k), Members(b)[k].Reference())))
  }

  lemma RolesDiffer(b: Bundle, i: nat, j: nat)
    requires i < j < |b.results| + 5
    ensures RoleOf(b, i) != RoleOf(b, j)
  {
    ResultRolesDiffer(if 3 <= i then i - 3 else 0, if 3 <= j then j - 3 else 0);
    ResultRolesDiffer(if 3 <= j then j - 3 else 0, 0);
  }

  /** The constructor accepts the manifest of every bundle with its two results. */
  lemma ManifestIsConstructed(b: Bundle)
    requires |b.results| >= 2
    ensures Constructed(ManifestOf(b))
  {
    var m := ManifestOf(b);
    forall i, j | 0 <= i < j < |m.Roles()| ensures m.Roles()[i] != m.Roles()[j] {
      RolesDiffer(b, i, j);
    }
    var n := |b.results|;
    assert m.Roles()[0] == "plan" && m.Roles()[1] == "candidate-eligibility" && m.Roles()[2] == "environment";
    assert m.Roles()[n + 3] == "comparison" && m.Roles()[n + 4] == "run-record";
    assert m.Roles()[3] == ResultRole(0) && m.Roles()[4] == ResultRole(1);
  }

  /** Exactly one entry has this role, and it names this artifact. */
  ghost predicate Names(m: Manifest, role: string, a: Artifact) {
    exists k :: && 0 <= k < |m.artifacts| && m.artifacts[k] == BundleRef(role, a.Reference())
                && forall j :: 0 <= j < |m.artifacts| && m.artifacts[j].role == role ==> j == k
  }

  lemma NamesAt(b: Bundle, k: nat, role: string, a: Artifact)
    requires k < |b.results| + 5 && role == RoleOf(b, k) && a == Members(b)[k]
    ensures Names(ManifestOf(b), role, a)
  {
    var m := ManifestOf(b);
    forall j | 0 <= j < |m.artifacts| && m.artifacts[j].role == role ensures j == k {
      if j < k {
        RolesDiffer(b, j, k);
      } else if k < j {
        RolesDiffer(b, k, j);
      }
    }
    assert m.artifacts[k] == BundleRef(role, a.Reference());
  }

  lemma ResultIsNamed(b: Bundle, i: nat)
    requires i < |b.results|
    ensures Names(ManifestOf(b), ResultRole(i), b.results[i])
  {
    NamesAt(b, i + 3, ResultRole(i), b.results[i]);
  }

  /** Whoever looks an artifact up by its role in the manifest finds that artifact of the bundle and no other. */
  lemma RolesNameTheirArtifacts(b: Bundle)
    ensures var m := ManifestOf(b);
            && m.runRecordId == b.runRecordId && m.bundleId == b.runRecordId + ":artifact-bundle"
            && Names(m, "plan", b.plan) && Names(m, "candidate-eligibility", b.eligibility)
            && Names(m, "environment", b.environment) && Names(m, "comparison", b.comparison)
            && Names(m, "run-record", b.runRecord)
            && forall i :: 0 <= i < |b.results| ==> Names(m, ResultRole(i), b.results[i])
  {
    var n := |b.results|;
    NamesAt(b, 0, "plan", b.plan);
    NamesAt(b, 1, "candidate-eligibility", b.eligibility);
    NamesAt(b, 2, "environment", b.environment);
    NamesAt(b, n + 3, "comparison", b.comparison);
    NamesAt(b, n + 4, "run-record", b.runRecord);
    forall i | 0 <= i < n ensures Names(ManifestOf(b), ResultRole(i), b.results[i]) {
      ResultIsNamed(b, i);
    }
  }

  // ----- canonical form -----

  /** `decode` parses stored bytes through the constructors; None is a malformed document. */
  datatype Codec = Codec(encode: Manifest -> Bytes, decode: Bytes -> Option<Manifest>)

  ghost predicate Faithful(c: Codec) {
    && (forall m :: Constructed(m) ==> c.decode(c.encode(m)) == Some(m))
    && (forall bytes :: c.decode(bytes).Some? ==> Constructed(c.decode(bytes).value))
  }

  function ManifestArtifact(h: Hashing, c: Codec, m: Manifest): Artifact {
    MakeArtifact(h, m.bundleId, c.encode(m))
  }

  function Script(h: Hashing, c: Codec, b: Bundle): seq<Artifact> {
    Members(b) + [ManifestArtifact(h, c, ManifestOf(b))]
  }

  /** Something with this reference can be retrieved. */
  ghost predicate Retrievable(v: View, r: Ref) {
    r.id in v && v[r.id].hash == r.hash
  }

  /** What verification establishes of a manifest stored under `ref`. */
  ghost predicate Verified(v: View, c: Codec, ref: Ref, m: Manifest) {
    && Retrievable(v, ref) && v[ref.id].payload == c.encode(m)
    && forall i :: 0 <= i < |m.artifacts| ==> Retrievable(v, m.artifacts[i].artifact)
  }

  method Verify(store: FileSystemArtifactStore, c: Codec, ref: Ref, m: Manifest) returns (ok: bool)
    ensures ok <==> Verified(store.Readable(), c, ref, m)
  {
    var r := store.Get(ref.id, Some(ref.hash));
    if r.Missing? || r.artifact.payload != c.encode(m) {
      return false;
    }
    for k := 0 to |m.artifacts|
      invariant forall i :: 0 <= i < k ==> Retrievable(store.Readable(), m.artifacts[i].artifact)
    {
      var member := store.Get(m.artifacts[k].artifact.id, Some(m.artifacts[k].artifact.hash));
      if member.Missing? {
        return false;
      }
    }
    ok := true;
  }

  /** Loads exactly the complete bundles: a readable, well-formed manifest none of whose artifacts is missing. */
  method Load(store: FileSystemArtifactStore, c: Codec, ref: Ref) returns (m: Option<Manifest>)
    requires Faithful(c)
    ensures m.Some? ==> Constructed(m.value) && m.value.bundleId == ref.id && Verified(store.Readable(), c, ref, m.value)
    ensures m.None? ==> forall other :: Constructed(other) && other.bundleId == ref.id ==> !Verified(store.Readable(), c, ref, other)
  {
    var r := store.Get(ref.id, Some(ref.hash));
    if r.Missing? {
      return None;
    }
    var parsed := c.decode(r.artifact.payload);
    if parsed.None? || parsed.value.bundleId != ref.id {
      return None;
    }
    var ok := Verify(store, c, ref, parsed.value);
    m := if ok then parsed else None;
  }

  datatype PersistResult = Persisted(manifest: Manifest, ref: Ref) | Stopped(reason: AppendResult)

  /**
  Members first, manifest last.  A stopped call leaves a prefix of that script; a call that
  returns has passed its own verification, which can no longer fail.
  */
  method Persist(store: FileSystemArtifactStore, c: Codec, b: Bundle, faults: FaultPlan) returns (r: PersistResult)
    requires store.Consistent() && Faithful(c) && |b.results| >= 2 && WellFormedScript(store.hashing, Members(b))
    modifies store
    ensures store.Consistent()
    ensures r.Persisted? ==>
              && r.manifest == ManifestOf(b) && r.ref == ManifestArtifact(store.hashing, c, r.manifest).Reference()
              && Full(old(store.Readable()), store.Readable(), Script(store.hashing, c, b))
              && Verified(store.Readable(), c, r.ref, r.manifest)
    ensures r.Stopped? ==> Partial(old(store.Readable()), store.Readable(), Script(store.hashing, c, b))
  {
    ManifestIsConstructed(b);
    var manifest := ManifestOf(b);
    var script := Script(store.hashing, c, b);
    assert WellFormedScript(store.hashing, script);
    var done, stop := AppendAll(store, script, faults);
    if stop.Some? {
      StoppedIsPartial(old(store.Readable()), store.Readable(), script, done, stop.value);
      return Stopped(stop.value);
    }
    var ref := ManifestArtifact(store.hashing, c, manifest).Reference();
    assert script[..done] == script;
    ScriptIsVerified(store.hashing, store.Readable(), c, b);
    var ok := Verify(store, c, ref, manifest);
    assert ok;
    r := Persisted(manifest, ref);
  }

  lemma ScriptIsVerified(h: Hashing, v: View, c: Codec, b: Bundle)
    requires AllStored(v, Script(h, c, b))
    ensures Verified(v, c, ManifestArtifact(h, c, ManifestOf(b)).Reference(), ManifestOf(b))
  {
    var script, m := Script(h, c, b), ManifestOf(b);
    assert Stored(v, script[|script| - 1]);
    forall i | 0 <= i < |m.artifacts| ensures Retrievable(v, m.artifacts[i].artifact) {
      assert script[i] == Members(b)[i] && Stored(v, script[i]);
    }
  }

  /**
  The round trip: once the script of a bundle is in the store, every later load of its reference
  returns its manifest and no other.
  */
  lemma PersistedBundleLoadsBack(h: Hashing, c: Codec, b: Bundle, v: View, later: View, m: Manifest)
    requires Faithful(c) && |b.results| >= 2 && AllStored(v, Script(h, c, b)) && Extends(v, later)
    ensures var ref := ManifestArtifact(h, c, ManifestOf(b)).Reference();
            Constructed(m) && m.bundleId == ref.id && Verified(later, c, ref, m) <==> m == ManifestOf(b)
  {
    ManifestIsConstructed(b);
    AllStoredGrows(v, later, Script(h, c, b));
    ScriptIsVerified(h, later, c, b);
    if Constructed(m) && Verified(later, c, ManifestArtifact(h, c, ManifestOf(b)).Reference(), m) {
      assert c.encode(m) == c.encode(ManifestOf(b));
      assert c.decode(c.encode(m)) == Some(m);
    }
  }
}
