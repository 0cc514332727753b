/**
Descriptive evaluation of one candidate against human reference judgments.

Human responses are counted per option, collapsed into directions, paired with the candidate's
direction and added up in a contingency table.  Abstention is never folded into a direction and
no response is lost on the way.
*/
module CandidateEvaluation {
  import opened Artifacts

  datatype Bucket = Unfavorable | Neutral | Favorable | Abstention

  const CANDIDATE_BUCKETS: seq<Bucket> := [Unfavorable, Neutral, Favorable]

  // ----- classifying the candidate's compound output -----

  datatype Threshold = Threshold(bucket: Bucket, lower: real, lowerInclusive: bool, upper: real, upperInclusive: bool) {
    predicate Contains(value: real) {
      && (if lowerInclusive then value >= lower else value > lower)
      && (if upperInclusive then value <= upper else value < upper)
    }
  }

  /** The only thresholds the protocol constructor lets through. */
  predicate FrozenPartition(ts: seq<Threshold>) {
    && |ts| == 3
    && ts[0] == Threshold(Unfavorable, -1.0, true, -0.05, true)
    && ts[1] == Threshold(Neutral, -0.05, false, 0.05, false)
    && ts[2] == Threshold(Favorable, 0.05, true, 1.0, true)
  }

  function Matches(ts: seq<Threshold>, value: real): seq<Bucket> {
    if ts == [] then []
    else (if ts[0].Contains(value) then [ts[0].bucket] else []) + Matches(ts[1..], value)
  }

  datatype Classification = Classified(bucket: Bucket) | OutOfBounds | NotExactlyOne

  function Classify(ts: seq<Threshold>, value: real): Classification {
    if !(-1.0 <= value <= 1.0) then OutOfBounds
    else if |Matches(ts, value)| != 1 then NotExactlyOne
    else Classified(Matches(ts, value)[0])
  }

  /** Every compound value in bounds lies in exactly one interval, and the intervals are in order. */
  lemma EveryCompoundHasOneBucket(ts: seq<Threshold>, value: real)
    requires FrozenPartition(ts)
    ensures Classify(ts, value) == OutOfBounds <==> value < -1.0 || value > 1.0
    ensures Classify(ts, value) == Classified(Unfavorable) <==> -1.0 <= value <= -0.05
    ensures Classify(ts, value) == Classified(Neutral) <==> -0.05 < value < 0.05
    ensures Classify(ts, value) == Classified(Favorable) <==> 0.05 <= value <= 1.0
    ensures Classify(ts, value) != NotExactlyOne && Classify(ts, value) != Classified(Abstention)
  {
    var rest := ts[1..];
    assert rest[0] == ts[1] && rest[1..][0] == ts[2] && rest[1..][1..] == [];
    assert Matches(ts, value) == (if ts[0].Contains(value) then [Unfavorable] else []) + Matches(rest, value);
    assert Matches(rest, value) == (if ts[1].Contains(value) then [Neutral] else []) + Matches(rest[1..], value);
    assert Matches(rest[1..], value) == if ts[2].Contains(value) then [Favorable] else [];
  }

  // ----- human responses -----

  datatype Label =
    | StronglyUnfavorable | SomewhatUnfavorable | Neither | SomewhatFavorable | StronglyFavorable | CannotDetermine

  const LABELS: seq<Label> :=
    [StronglyUnfavorable, SomewhatUnfavorable, Neither, SomewhatFavorable, StronglyFavorable, CannotDetermine]

  function BucketOf(l: Label): Bucket {
    match l
    case StronglyUnfavorable => Unfavorable
    case SomewhatUnfavorable => Unfavorable
    case Neither => Neutral
    case SomewhatFavorable => Favorable
    case StronglyFavorable => Favorable
    case CannotDetermine => Abstention
  }

  type Counts = map<Label, int>

  predicate ValidCounts(counts: Counts) {
    && (forall l :: l in counts ==> counts[l] >= 0)
    && |counts| == 6
    && StronglyUnfavorable in counts && SomewhatUnfavorable in counts && Neither in counts
    && SomewhatFavorable in counts && StronglyFavorable in counts && CannotDetermine in counts
  }

  datatype Human = Human(unfavorable: int, neutral: int, favorable: int, abstention: int) {
    function Denominator(): int {
      unfavorable + neutral + favorable
    }

    function Total(): int {
      Denominator() + abstention
    }

    function Count(b: Bucket): int {
      match b
      case Unfavorable => unfavorable
      case Neutral => neutral
      case Favorable => favorable
      case Abstention => abstention
    }
  }

  function Collapse(counts: Counts): Option<Human> {
    if !ValidCounts(counts) then None
    else Some(Human(
      counts[StronglyUnfavorable] + counts[SomewhatUnfavorable], counts[Neither],
      counts[SomewhatFavorable] + counts[StronglyFavorable], counts[CannotDetermine]))
  }

  /** Counts are collapsed exactly if every one of the six options has one and none is negative. */
  lemma CollapseAcceptsExactly(counts: Counts)
    ensures Collapse(counts).Some? <==> forall l: Label :: l in counts && counts[l] >= 0
  {
    if forall l: Label :: l in counts && counts[l] >= 0 {
      assert counts.Keys == ALL_LABELS by {
        forall l: Label ensures l in ALL_LABELS {
          EveryLabel(l);
        }
      }
      assert |counts| == |counts.Keys| == 6;
    } else {
      var l: Label :| l !in counts || counts[l] < 0;
      EveryLabel(l);
    }
  }

  const ALL_LABELS: set<Label> :=
    {StronglyUnfavorable, SomewhatUnfavorable, Neither, SomewhatFavorable, StronglyFavorable, CannotDetermine}

  lemma EveryLabel(l: Label)
    ensures l == StronglyUnfavorable || l == SomewhatUnfavorable || l == Neither || l == SomewhatFavorable
            || l == StronglyFavorable || l == CannotDetermine
  {
  }

  /** The responses among these options that the declared mapping sends to `b`. */
  function Mass(counts: Counts, labels: seq<Label>, b: Bucket): int {
    if labels == [] then 0
    else (if labels[0] in counts && BucketOf(labels[0]) == b then counts[labels[0]] else 0) + Mass(counts, labels[1..], b)
  }

  function Responses(counts: Counts, labels: seq<Label>): int {
    if labels == [] then 0
    else (if labels[0] in counts then counts[labels[0]] else 0) + Responses(counts, labels[1..])
  }

  /** The collapse is the declared mapping, bucket by bucket, and keeps every response. */
  lemma CollapseIsTheMapping(counts: Counts, b: Bucket)
    requires ValidCounts(counts)
    ensures var human := Collapse(counts).value;
            && human.Count(b) == Mass(counts, LABELS, b)
            && human.Total() == Responses(counts, LABELS)
            && human.Count(b) >= 0
  {
    UnrollMass(counts, b);
  }

  lemma UnrollMass(counts: Counts, b: Bucket)
    requires ValidCounts(counts)
    ensures Mass(counts, LABELS, b) ==
            (match b
             case Unfavorable => counts[StronglyUnfavorable] + counts[SomewhatUnfavorable]
             case Neutral => counts[Neither]
             case Favorable => counts[SomewhatFavorable] + counts[StronglyFavorable]
             case Abstention => counts[CannotDetermine])
    ensures Responses(counts, LABELS) ==
            counts[StronglyUnfavorable] + counts[SomewhatUnfavorable] + counts[Neither]
            + counts[SomewhatFavorable] + counts[StronglyFavorable] + counts[CannotDetermine]
  {
    var l5 := [CannotDetermine];
    var l4, l3 := [StronglyFavorable] + l5, [SomewhatFavorable] + ([StronglyFavorable] + l5);
    var l2, l1 := [Neither] + l3, [SomewhatUnfavorable] + ([Neither] + l3);
    assert LABELS == [StronglyUnfavorable] + l1 && l5 == [CannotDetermine] + [];
    MassStep(counts, StronglyUnfavorable, l1, b);
    MassStep(counts, SomewhatUnfavorable, l2, b);
    MassStep(counts, Neither, l3, b);
    MassStep(counts, SomewhatFavorable, l4, b);
    MassStep(counts, StronglyFavorable, l5, b);
    MassStep(counts, CannotDetermine, [], b);
  }

  lemma MassStep(counts: Counts, l: Label, rest: seq<Label>, b: Bucket)
    requires l in counts
    ensures Mass(counts, [l] + rest, b) == (if BucketOf(l) == b then counts[l] else 0) + Mass(counts, rest, b)
    ensures Responses(counts, [l] + rest) == counts[l] + Responses(counts, rest)
  {
    assert ([l] + rest)[1..] == rest;
  }

  // ----- correspondence -----

  datatype Correspondence = Correspondence(
    bucket: Bucket, same: int, unfavorable: int, neutral: int, favorable: int, denominator: int, abstentions: int)

  predicate CorrespondenceConstructed(c: Correspondence) {
    && c.bucket in CANDIDATE_BUCKETS
    && c.same >= 0 && c.unfavorable >= 0 && c.neutral >= 0 && c.favorable >= 0 && c.denominator >= 0 && c.abstentions >= 0
    && c.unfavorable + c.neutral + c.favorable == c.denominator
    && c.same == (match c.bucket case Unfavorable => c.unfavorable case Neutral => c.neutral case _ => c.favorable)
  }

  function Describe(bucket: Bucket, human: Human): Option<Correspondence> {
    if bucket !in CANDIDATE_BUCKETS then None
    else Some(Correspondence(
      bucket, human.Count(bucket), human.unfavorable, human.neutral, human.favorable, human.Denominator(), human.abstention))
  }

  // ----- one item -----

  datatype ResultStatus = Success | Partial | Abstained | Failed

  datatype Output = Output(key: string, value: real, lower: real, upper: real)

  /** One analyzer result; `compound` is the raw output's compound value if that is a number. */
  datatype CandidateResult = CandidateResult(
    status: ResultStatus, compound: Option<real>, scores: seq<Output>, abstentionReasons: seq<string>, errors: seq<string>)

  predicate ResultConstructed(r: CandidateResult) {
    && (r.status == Success ==> r.errors == [])
    && (r.status == Failed ==> r.errors != [])
    && (r.status in {Abstained, Failed} ==> r.scores == [])
  }

  datatype Coverage = Sufficient | Insufficient

  datatype Synthesis = Synthesis(itemId: string, coverage: Coverage, counts: Counts)

  const PRESERVED_KEYS: seq<string> := ["neg", "neu", "pos", "compound"]

  /** Keys in order of first appearance, as a dictionary keeps them. */
  function Keys(scores: seq<Output>): seq<string> {
    if scores == [] then []
    else
      var before := Keys(scores[..|scores| - 1]);
      var last := scores[|scores| - 1].key;
      if last in before then before else before + [last]
  }

  /** The last score under a key, as a dictionary keeps it. */
  function Score(scores: seq<Output>, key: string): (found: Option<Output>)
    ensures found.Some? ==> found.value in scores && found.value.key == key
  {
    if scores == [] then None
    else if scores[|scores| - 1].key == key then Some(scores[|scores| - 1])
    else Score(scores[..|scores| - 1], key)
  }

  predicate WithinBounds(o: Output) {
    o.lower < o.upper && o.lower <= o.value <= o.upper
  }

  predicate OutputConstructed(o: Output) {
    o.key in PRESERVED_KEYS && WithinBounds(o)
  }

  lemma {:induction false} KeysAreScored(scores: seq<Output>, key: string)
    ensures key in Keys(scores) <==> Score(scores, key).Some?
  {
    if scores != [] {
      KeysAreScored(scores[..|scores| - 1], key);
    }
  }

  /** Where each key appears first, beside `Keys`. */
  ghost function FirstPositions(scores: seq<Output>): seq<nat> {
    if scores == [] then []
    else
      var front := scores[..|scores| - 1];
      if scores[|scores| - 1].key in Keys(front) then FirstPositions(front) else FirstPositions(front) + [|scores| - 1]
  }

  /** These keys stand at these positions, which are the first of each key, in order, and cover every score. */
  ghost predicate FirstsOf(scores: seq<Output>, ks: seq<string>, ps: seq<nat>) {
    && |ks| == |ps|
    && (forall i :: 0 <= i < |ps| ==> ps[i] < |scores| && scores[ps[i]].key == ks[i])
    && (forall i, j :: 0 <= i < |ps| && 0 <= j < ps[i] ==> scores[j].key != ks[i])
    && (forall i, j :: 0 <= i < j < |ps| ==> ps[i] < ps[j])
    && (forall j :: 0 <= j < |scores| ==> scores[j].key in ks)
  }

  lemma KnownKey(scores: seq<Output>, next: Output, ks: seq<string>, ps: seq<nat>)
    requires FirstsOf(scores, ks, ps) && next.key in ks
    ensures FirstsOf(scores + [next], ks, ps)
  {
  }

  lemma NewKey(scores: seq<Output>, next: Output, ks: seq<string>, ps: seq<nat>)
    requires FirstsOf(scores, ks, ps) && next.key !in ks
    ensures FirstsOf(scores + [next], ks + [next.key], ps + [|scores|])
  {
  }

  /** The keys are those scored, each once, in the order in which they first appear. */
  lemma {:induction false} KeysAreFirstAppearances(scores: seq<Output>)
    ensures FirstsOf(scores, Keys(scores), FirstPositions(scores))
  {
    if scores != [] {
      var front, last := scores[..|scores| - 1], scores[|scores| - 1];
      KeysAreFirstAppearances(front);
      assert scores == front + [last];
      if last.key in Keys(front) {
        KnownKey(front, last, Keys(front), FirstPositions(front));
      } else {
        NewKey(front, last, Keys(front), FirstPositions(front));
      }
    }
  }

  /** The four outputs of a successful result; None where its keys or bounds are wrong. */
  function Preserved(r: CandidateResult): Option<seq<Output>> {
    if r.status != Success then Some([])
    else if Keys(r.scores) != PRESERVED_KEYS then None
    else
      var found := [Score(r.scores, "neg"), Score(r.scores, "neu"), Score(r.scores, "pos"), Score(r.scores, "compound")];
      if forall f :: f in found ==> f.Some? && OutputConstructed(f.value)
      then Some([found[0].value, found[1].value, found[2].value, found[3].value])
      else None
  }

  datatype ItemStatus = Described | InsufficientCoverage | CandidateAbstained | CandidateFailed

  datatype ItemEvaluation = ItemEvaluation(
    position: int, itemId: string, coverage: Coverage, counts: Counts, human: Human, resultStatus: ResultStatus,
    rawCompound: Option<real>, outputs: seq<Output>, bucket: Option<Bucket>, correspondence: Option<Correspondence>, status: ItemStatus,
    reasons: seq<string>)

  predicate ItemConstructed(e: ItemEvaluation) {
    && e.position >= 0
    && ValidCounts(e.counts) && Responses(e.counts, LABELS) == e.human.Total()
    && (if e.status == Described then
          && e.coverage == Sufficient && e.resultStatus == Success
          && e.bucket.Some? && e.bucket.value in CANDIDATE_BUCKETS
          && e.correspondence.Some? && e.reasons == []
        else
          e.correspondence.None? && e.reasons != [])
    && (if e.resultStatus == Success then
          |e.outputs| == 4 && forall k :: 0 <= k < 4 ==> e.outputs[k].key == PRESERVED_KEYS[k]
        else e.outputs == [])
  }

  datatype ItemError = CountsInvalid | UnsupportedStatus | CompoundNotNumeric | CompoundUnclassified | OutputsInvalid

  datatype ItemOutcome = Evaluated(item: ItemEvaluation) | NotEvaluated(error: ItemError)

  const COVERAGE_REASON :=
    "human reference coverage is 'insufficient_reference_coverage', not 'meets_declared_minimum_coverage'"

  datatype Pairing =
    | Paired(status: ItemStatus, bucket: Option<Bucket>, correspondence: Option<Correspondence>, reasons: seq<string>)
    | Unpaired(error: ItemError)

  /** Status, candidate bucket, correspondence and reasons, in the order the source branches. */
  function Pair(ts: seq<Threshold>, item: Synthesis, human: Human, r: CandidateResult): Pairing {
    if r.status == Abstained then
      Paired(
        CandidateAbstained, None, None,
        if r.abstentionReasons != [] then r.abstentionReasons else ["candidate abstained without a more specific reason"])
    else if r.status == Failed then
      Paired(CandidateFailed, None, None, if r.errors != [] then r.errors else ["candidate execution failed"])
    else if r.status != Success then Unpaired(UnsupportedStatus)
    else if r.compound.None? then Unpaired(CompoundNotNumeric)
    else
      var c := Classify(ts, r.compound.value);
      if !c.Classified? then Unpaired(CompoundUnclassified)
      else if item.coverage != Sufficient then Paired(InsufficientCoverage, Some(c.bucket), None, [COVERAGE_REASON])
      else if Describe(c.bucket, human).None? then Unpaired(CompoundUnclassified)
      else Paired(Described, Some(c.bucket), Describe(c.bucket, human), [])
  }

  function EvaluateItem(ts: seq<Threshold>, position: nat, item: Synthesis, r: CandidateResult): ItemOutcome {
    var human := Collapse(item.counts);
    if human.None? then NotEvaluated(CountsInvalid)
    else
      match Pair(ts, item, human.value, r)
      case Unpaired(error) => NotEvaluated(error)
      case Paired(status, bucket, correspondence, reasons) =>
        if Preserved(r).None? then NotEvaluated(OutputsInvalid)
        else Evaluated(ItemEvaluation(
          position, item.itemId, item.coverage, item.counts, human.value, r.status, r.compound, Preserved(r).value,
          bucket, correspondence, status, reasons))
  }

  /** No later score has this one's key. */
  predicate IsLastOfKey(scores: seq<Output>, j: nat) {
    j < |scores| && forall i :: j < i < |scores| ==> scores[i].key != scores[j].key
  }

  lemma {:induction false} ScoreIsLast(scores: seq<Output>, key: string)
    ensures match Score(scores, key)
            case None => forall i :: 0 <= i < |scores| ==> scores[i].key != key
            case Some(o) => exists j: nat :: IsLastOfKey(scores, j) && scores[j] == o && o.key == key
  {
    if scores != [] {
      var n := |scores| - 1;
      var front := scores[..n];
      ScoreIsLast(front, key);
      if scores[n].key == key {
        assert IsLastOfKey(scores, n);
      } else if Score(front, key).Some? {
        var j: nat :| IsLastOfKey(front, j) && front[j] == Score(front, key).value && front[j].key == key;
        assert IsLastOfKey(scores, j);
      } else {
        assert forall i :: 0 <= i < n ==> scores[i].key == front[i].key;
      }
    }
  }

  lemma LastScoreIsFound(scores: seq<Output>, j: nat)
    requires IsLastOfKey(scores, j)
    ensures Score(scores, scores[j].key) == Some(scores[j])
  {
    ScoreIsLast(scores, scores[j].key);
  }

  /** The four keys, in order of first appearance, and the last score under each within its own bounds. */
  ghost predicate OutputsUsable(scores: seq<Output>) {
    && Keys(scores) == ["neg", "neu", "pos", "compound"]
    && forall j: nat :: IsLastOfKey(scores, j) ==> WithinBounds(scores[j])
  }

  predicate ScoredWithin(scores: seq<Output>, key: string) {
    Score(scores, key).Some? && WithinBounds(Score(scores, key).value)
  }

  lemma PreservedByKey(r: CandidateResult)
    requires r.status == Success
    ensures Preserved(r).Some? <==>
            && Keys(r.scores) == ["neg", "neu", "pos", "compound"]
            && ScoredWithin(r.scores, "neg") && ScoredWithin(r.scores, "neu")
            && ScoredWithin(r.scores, "pos") && ScoredWithin(r.scores, "compound")
  {
    assert PRESERVED_KEYS[0] == "neg" && PRESERVED_KEYS[1] == "neu";
    assert PRESERVED_KEYS[2] == "pos" && PRESERVED_KEYS[3] == "compound";
    var found := [Score(r.scores, "neg"), Score(r.scores, "neu"), Score(r.scores, "pos"), Score(r.scores, "compound")];
    assert found[0] in found && found[1] in found && found[2] in found && found[3] in found;
  }

  /** One key's last score is within its bounds. */
  lemma LastOfKeyWithin(scores: seq<Output>, key: string)
    requires key in Keys(scores)
    ensures ScoredWithin(scores, key) <==>
            forall j: nat :: IsLastOfKey(scores, j) && scores[j].key == key ==> WithinBounds(scores[j])
  {
    KeysAreScored(scores, key);
    ScoreIsLast(scores, key);
    forall j: nat | IsLastOfKey(scores, j) && scores[j].key == key ensures Score(scores, key) == Some(scores[j]) {
      LastScoreIsFound(scores, j);
    }
  }

  /** A successful result's outputs are kept exactly if they are usable. */
  lemma PreservedExactly(r: CandidateResult)
    requires r.status == Success
    ensures Preserved(r).Some? <==> OutputsUsable(r.scores)
  {
    PreservedByKey(r);
    var ks := Keys(r.scores);
    if ks == ["neg", "neu", "pos", "compound"] {
      KeysAreFirstAppearances(r.scores);
      assert ks[0] == "neg" && ks[1] == "neu" && ks[2] == "pos" && ks[3] == "compound";
      LastOfKeyWithin(r.scores, ks[0]);
      LastOfKeyWithin(r.scores, ks[1]);
      LastOfKeyWithin(r.scores, ks[2]);
      LastOfKeyWithin(r.scores, ks[3]);
      forall j: nat | IsLastOfKey(r.scores, j)
        ensures r.scores[j].key == ks[0] || r.scores[j].key == ks[1] || r.scores[j].key == ks[2] || r.scores[j].key == ks[3]
      {
        var k :| 0 <= k < |ks| && ks[k] == r.scores[j].key;
      }
    }
  }

  /** What a successful result must look like to be described; the other results need nothing. */
  ghost predicate Usable(r: CandidateResult) {
    && r.status != Partial
    && (r.status == Success ==> r.compound.Some? && -1.0 <= r.compound.value <= 1.0 && OutputsUsable(r.scores))
  }

  lemma PairingAcceptsExactlyTheUsable(ts: seq<Threshold>, item: Synthesis, human: Human, r: CandidateResult)
    requires FrozenPartition(ts) && ResultConstructed(r)
    ensures Pair(ts, item, human, r).Paired? && Preserved(r).Some? <==> Usable(r)
  {
    if r.compound.Some? {
      EveryCompoundHasOneBucket(ts, r.compound.value);
    }
    if r.status == Success {
      PreservedExactly(r);
    }
  }

  /** The exact inputs an item evaluation accepts; its records' constructors refuse none of them. */
  lemma EvaluationAcceptsExactlyTheUsable(ts: seq<Threshold>, position: nat, item: Synthesis, r: CandidateResult)
    requires FrozenPartition(ts) && ValidCounts(item.counts) && ResultConstructed(r)
    ensures EvaluateItem(ts, position, item, r).Evaluated? <==> Usable(r)
    ensures EvaluateItem(ts, position, item, r).Evaluated? ==>
              var e := EvaluateItem(ts, position, item, r).item;
              && ItemConstructed(e) && Collapse(e.counts) == Some(e.human)
              && (e.correspondence.Some? ==> CorrespondenceConstructed(e.correspondence.value))
  {
    CollapseIsTheMapping(item.counts, Unfavorable);
    CollapseIsTheMapping(item.counts, Neutral);
    CollapseIsTheMapping(item.counts, Favorable);
    CollapseIsTheMapping(item.counts, Abstention);
    PairingAcceptsExactlyTheUsable(ts, item, Collapse(item.counts).value, r);
  }

  /** The frozen interval of a direction, in numbers. */
  predicate InInterval(c: Bucket, compound: real) {
    match c
    case Unfavorable => -1.0 <= compound <= -0.05
    case Neutral => -0.05 < compound < 0.05
    case Favorable => 0.05 <= compound <= 1.0
    case Abstention => false
  }

  /** The candidate's direction is that of its compound output, at either coverage; without success there is none. */
  ghost predicate HasDirectionOf(e: ItemEvaluation, r: CandidateResult) {
    if r.status == Success then
      r.compound.Some? && e.bucket.Some? && forall c :: e.bucket == Some(c) <==> InInterval(c, r.compound.value)
    else e.bucket == None
  }

  /** The correspondence counts the responses to the six options, and those on the candidate's side. */
  predicate CountsResponses(c: Correspondence, counts: Counts)
    requires ValidCounts(counts)
  {
    && c.unfavorable == counts[StronglyUnfavorable] + counts[SomewhatUnfavorable] && c.neutral == counts[Neither]
    && c.favorable == counts[SomewhatFavorable] + counts[StronglyFavorable]
    && c.abstentions == counts[CannotDetermine]
    && c.denominator == c.unfavorable + c.neutral + c.favorable
    && (c.bucket == Unfavorable ==> c.same == c.unfavorable) && (c.bucket == Neutral ==> c.same == c.neutral)
    && (c.bucket == Favorable ==> c.same == c.favorable)
  }

  /** Why an item is not described. */
  predicate Explained(e: ItemEvaluation, r: CandidateResult) {
    match e.status
    case Described => e.reasons == []
    case InsufficientCoverage => e.reasons == [COVERAGE_REASON]
    case CandidateAbstained =>
      if r.abstentionReasons == [] then e.reasons == ["candidate abstained without a more specific reason"]
      else e.reasons == r.abstentionReasons
    case CandidateFailed => e.reasons == r.errors
  }

  /**
  What an evaluated item says of the synthesis and the result it was made from: the direction of the
  compound output, a correspondence exactly where success meets sufficient coverage, and why otherwise.
  */
  lemma ItemReadsItsInputs(ts: seq<Threshold>, position: nat, item: Synthesis, r: CandidateResult, e: ItemEvaluation)
    requires FrozenPartition(ts) && ValidCounts(item.counts) && ResultConstructed(r)
    requires EvaluateItem(ts, position, item, r) == Evaluated(e)
    ensures e.position == position && e.itemId == item.itemId && e.coverage == item.coverage && e.counts == item.counts
    ensures e.resultStatus == r.status && e.rawCompound == r.compound
    ensures HasDirectionOf(e, r) && Explained(e, r)
    ensures e.status == Described <==> r.status == Success && item.coverage == Sufficient
    ensures e.status == InsufficientCoverage <==> r.status == Success && item.coverage == Insufficient
    ensures e.status == CandidateAbstained <==> r.status == Abstained
    ensures e.correspondence.Some? <==> e.status == Described
    ensures e.status == Described ==>
              e.correspondence.value.bucket == e.bucket.value && CountsResponses(e.correspondence.value, item.counts)
  {
    if r.compound.Some? {
      EveryCompoundHasOneBucket(ts, r.compound.value);
    }
  }

  /** The four outputs kept of a successful result are, key by key, its last scores under those keys. */
  lemma OutputsAreTheLastScores(ts: seq<Threshold>, position: nat, item: Synthesis, r: CandidateResult, k: nat)
    requires EvaluateItem(ts, position, item, r).Evaluated? && r.status == Success && k < 4
    ensures var outputs := EvaluateItem(ts, position, item, r).item.outputs;
            && |outputs| == 4 && outputs[k].key == PRESERVED_KEYS[k]
            && exists j: nat :: IsLastOfKey(r.scores, j) && r.scores[j] == outputs[k]
  {
    ScoreIsLast(r.scores, PRESERVED_KEYS[k]);
  }

  /** What each error says of the synthesis and the result; exactly one of them is true of what is not evaluated. */
  ghost predicate Faulty(item: Synthesis, r: CandidateResult, e: ItemError) {
    var counted := forall l: Label :: l in item.counts && item.counts[l] >= 0;
    match e
    case CountsInvalid => !counted
    case UnsupportedStatus => counted && r.status == Partial
    case CompoundNotNumeric => counted && r.status == Success && r.compound.None?
    case CompoundUnclassified =>
      counted && r.status == Success && r.compound.Some? && !(-1.0 <= r.compound.value <= 1.0)
    case OutputsInvalid =>
      && counted && r.status == Success && r.compound.Some? && -1.0 <= r.compound.value <= 1.0
      && !OutputsUsable(r.scores)
  }

  lemma EvaluationFailsExactly(ts: seq<Threshold>, position: nat, item: Synthesis, r: CandidateResult, e: ItemError)
    requires FrozenPartition(ts) && ResultConstructed(r)
    ensures EvaluateItem(ts, position, item, r) == NotEvaluated(e) <==> Faulty(item, r, e)
  {
    CollapseAcceptsExactly(item.counts);
    if r.compound.Some? {
      EveryCompoundHasOneBucket(ts, r.compound.value);
    }
    if r.status == Success {
      PreservedExactly(r);
    }
  }

  /** `e` came out of `EvaluateItem` on well-formed inputs. */
  ghost predicate Built(ts: seq<Threshold>, e: ItemEvaluation) {
    && FrozenPartition(ts)
    && exists position: nat, item: Synthesis, r: CandidateResult ::
         ValidCounts(item.counts) && ResultConstructed(r) && EvaluateItem(ts, position, item, r) == Evaluated(e)
  }

  ghost predicate AllBuilt(ts: seq<Threshold>, items: seq<ItemEvaluation>) {
    forall k :: 0 <= k < |items| ==> Built(ts, items[k])
  }

  /** What every built item satisfies: the four statuses are told apart by result and coverage alone. */
  predicate Facts(e: ItemEvaluation) {
    && ItemConstructed(e) && Collapse(e.counts) == Some(e.human)
    && e.human.unfavorable >= 0 && e.human.neutral >= 0 && e.human.favorable >= 0 && e.human.abstention >= 0
    && e.resultStatus != Partial
    && (e.status == Described <==> e.resultStatus == Success && e.coverage == Sufficient)
    && (e.status == InsufficientCoverage <==> e.resultStatus == Success && e.coverage == Insufficient)
    && (e.status == CandidateAbstained <==> e.resultStatus == Abstained)
    && (e.status == CandidateFailed <==> e.resultStatus == Failed)
    && (e.status == Described ==> e.correspondence.value.same == e.human.Count(e.bucket.value))
    && (e.status == Described ==> e.correspondence.value.denominator == e.human.Denominator())
  }

  lemma BuiltFacts(ts: seq<Threshold>, e: ItemEvaluation)
    requires Built(ts, e)
    ensures Facts(e)
  {
    var position: nat, item: Synthesis, r: CandidateResult :|
      ValidCounts(item.counts) && ResultConstructed(r) && EvaluateItem(ts, position, item, r) == Evaluated(e);
    EvaluationAcceptsExactlyTheUsable(ts, position, item, r);
  }

  ghost predicate AllFacts(items: seq<ItemEvaluation>) {
    forall k :: 0 <= k < |items| ==> Facts(items[k])
  }

  lemma AllBuiltFacts(ts: seq<Threshold>, items: seq<ItemEvaluation>)
    requires AllBuilt(ts, items)
    ensures AllFacts(items)
  {
    forall k | 0 <= k < |items| ensures Facts(items[k]) {
      BuiltFacts(ts, items[k]);
    }
  }

  // ----- sums over items -----

  /** The quantities added up over items. */
  datatype Measure =
    | Direction(candidate: Bucket, human: Bucket)
    | RowOf(candidate: Bucket)
    | DescribedDirectional
    | ExcludedDirectional
    | SameDirection
    | Abstentions
    | OriginalResponses
    | HasStatus(status: ItemStatus)
    | HasResult(result: ResultStatus)
    | HasCoverage(coverage: Coverage)
    | One

  function Weight(m: Measure, e: ItemEvaluation): int {
    match m
    case Direction(c, b) => if e.status == Described && e.bucket == Some(c) then e.human.Count(b) else 0
    case RowOf(c) => if e.status == Described && e.bucket == Some(c) then e.human.Denominator() else 0
    case DescribedDirectional => if e.status == Described then e.human.Denominator() else 0
    case ExcludedDirectional => if e.status == Described then 0 else e.human.Denominator()
    case SameDirection => if e.correspondence.Some? then e.correspondence.value.same else 0
    case Abstentions => e.human.abstention
    case OriginalResponses => Responses(e.counts, LABELS)
    case HasStatus(s) => if e.status == s then 1 else 0
    case HasResult(r) => if e.resultStatus == r then 1 else 0
    case HasCoverage(c) => if e.coverage == c then 1 else 0
    case One => 1
  }

  function Sum(items: seq<ItemEvaluation>, m: Measure): int {
    if items == [] then 0 else Weight(m, items[0]) + Sum(items[1..], m)
  }

  lemma {:induction false} SumOfConcat(xs: seq<ItemEvaluation>, ys: seq<ItemEvaluation>, m: Measure)
    ensures Sum(xs + ys, m) == Sum(xs, m) + Sum(ys, m)
  {
    if xs == [] {
      assert xs + ys == ys;
    } else {
      assert (xs + ys)[1..] == xs[1..] + ys;
      SumOfConcat(xs[1..], ys, m);
    }
  }

  lemma SumWithout(items: seq<ItemEvaluation>, k: nat, m: Measure)
    requires k < |items|
    ensures Sum(items, m) == Weight(m, items[k]) + Sum(items[..k] + items[k + 1..], m)
  {
    var tail := [items[k]] + items[k + 1..];
    assert items == items[..k] + tail && tail[1..] == items[k + 1..];
    SumOfConcat(items[..k], tail, m);
    SumOfConcat(items[..k], items[k + 1..], m);
  }

  lemma MultisetWithout(items: seq<ItemEvaluation>, k: nat)
    requires k < |items|
    ensures multiset(items[..k] + items[k + 1..]) == multiset(items) - multiset{items[k]}
  {
    assert items == items[..k] + [items[k]] + items[k + 1..];
  }

  lemma FindInPermutation(xs: seq<ItemEvaluation>, ys: seq<ItemEvaluation>) returns (k: nat)
    requires multiset(xs) == multiset(ys) && xs != []
    ensures k < |ys| && ys[k] == xs[0] && multiset(xs[1..]) == multiset(ys[..k] + ys[k + 1..])
  {
    assert xs[0] in multiset(ys);
    k :| 0 <= k < |ys| && ys[k] == xs[0];
    assert xs[..0] + xs[1..] == xs[1..];
    MultisetWithout(xs, 0);
    MultisetWithout(ys, k);
  }

  /** A sum does not depend on the order of the items. */
  lemma {:induction false} SumIgnoresOrder(xs: seq<ItemEvaluation>, ys: seq<ItemEvaluation>, m: Measure)
    requires multiset(xs) == multiset(ys)
    ensures Sum(xs, m) == Sum(ys, m)
    decreases |xs|
  {
    if xs == [] {
      assert |multiset(ys)| == 0;
    } else {
      var k := FindInPermutation(xs, ys);
      SumWithout(ys, k, m);
      SumIgnoresOrder(xs[1..], ys[..k] + ys[k + 1..], m);
    }
  }

  // ----- the contingency table -----

  /** `cells[(candidate, human)]`, and the preserved denominator. */
  datatype Contingency = Contingency(cells: map<(Bucket, Bucket), int>, denominator: int)

  function Cells(items: seq<ItemEvaluation>): map<(Bucket, Bucket), int> {
    map c, b | c in {Unfavorable, Neutral, Favorable} && b in {Unfavorable, Neutral, Favorable} ::
      (c, b) := Sum(items, Direction(c, b))
  }

  function Row(cells: map<(Bucket, Bucket), int>, c: Bucket): int
    requires (c, Unfavorable) in cells && (c, Neutral) in cells && (c, Favorable) in cells
  {
    cells[(c, Unfavorable)] + cells[(c, Neutral)] + cells[(c, Favorable)]
  }

  predicate Directional(cells: map<(Bucket, Bucket), int>) {
    forall c, b :: c in CANDIDATE_BUCKETS && b in CANDIDATE_BUCKETS ==> (c, b) in cells
  }

  lemma CellsAreDirectional(items: seq<ItemEvaluation>)
    ensures Directional(Cells(items))
    ensures Cells(items).Keys == {(Unfavorable, Unfavorable), (Unfavorable, Neutral), (Unfavorable, Favorable),
                                  (Neutral, Unfavorable), (Neutral, Neutral), (Neutral, Favorable),
                                  (Favorable, Unfavorable), (Favorable, Neutral), (Favorable, Favorable)}
  {
  }

  function CellSum(cells: map<(Bucket, Bucket), int>): int
    requires Directional(cells)
  {
    Row(cells, Unfavorable) + Row(cells, Neutral) + Row(cells, Favorable)
  }

  ghost predicate ContingencyConstructed(t: Contingency) {
    && Directional(t.cells) && (forall k :: k in t.cells ==> t.cells[k] >= 0)
    && CellSum(t.cells) == t.denominator
  }

  lemma SumOfSnoc(items: seq<ItemEvaluation>, k: nat, m: Measure)
    requires k < |items|
    ensures Sum(items[..k + 1], m) == Sum(items[..k], m) + Weight(m, items[k])
  {
    assert items[..k + 1] == items[..k] + [items[k]];
    SumOfConcat(items[..k], [items[k]], m);
    assert [items[k]][1..] == [];
  }

  /** The three additions for one described item. */
  function AddRow(counts: map<(Bucket, Bucket), int>, c: Bucket, human: Human): map<(Bucket, Bucket), int>
    requires Directional(counts) && c in CANDIDATE_BUCKETS
  {
    counts[(c, Unfavorable) := counts[(c, Unfavorable)] + human.unfavorable]
          [(c, Neutral) := counts[(c, Neutral)] + human.neutral]
          [(c, Favorable) := counts[(c, Favorable)] + human.favorable]
  }

  lemma RowIsAdded(counts: map<(Bucket, Bucket), int>, items: seq<ItemEvaluation>, k: nat, c: Bucket)
    requires k < |items| && counts == Cells(items[..k]) && items[k].status == Described
    requires items[k].bucket == Some(c) && c != Abstention
    ensures Directional(counts) && c in CANDIDATE_BUCKETS
    ensures AddRow(counts, c, items[k].human) == Cells(items[..k + 1])
  {
    CellsAreDirectional(items[..k]);
    assert c == CANDIDATE_BUCKETS[0] || c == CANDIDATE_BUCKETS[1] || c == CANDIDATE_BUCKETS[2];
    var next := AddRow(counts, c, items[k].human);
    AddRowKeys(counts, c, items[k].human);
    forall x, b | (x, b) in next
      ensures next[(x, b)] == counts[(x, b)] + Weight(Direction(x, b), items[k])
    {
      AddedCell(counts, c, items[k].human, x, b);
    }
    NextCells(items, k, next);
  }

  lemma AddRowKeys(counts: map<(Bucket, Bucket), int>, c: Bucket, human: Human)
    requires Directional(counts) && c in CANDIDATE_BUCKETS
    ensures AddRow(counts, c, human).Keys == counts.Keys
  {
    assert Unfavorable in CANDIDATE_BUCKETS && Neutral in CANDIDATE_BUCKETS && Favorable in CANDIDATE_BUCKETS;
  }

  lemma AddedCell(counts: map<(Bucket, Bucket), int>, c: Bucket, human: Human, x: Bucket, b: Bucket)
    requires Directional(counts) && c in CANDIDATE_BUCKETS && (x, b) in counts && b != Abstention
    ensures AddRow(counts, c, human)[(x, b)] == counts[(x, b)] + if x == c then human.Count(b) else 0
  {
  }

  lemma UndescribedAddsNothing(counts: map<(Bucket, Bucket), int>, items: seq<ItemEvaluation>, k: nat)
    requires k < |items| && counts == Cells(items[..k]) && items[k].status != Described
    ensures counts == Cells(items[..k + 1])
  {
    NextCells(items, k, counts);
  }

  method AddCounts(counts: map<(Bucket, Bucket), int>, c: Bucket, human: Human) returns (next: map<(Bucket, Bucket), int>)
    requires Directional(counts) && c in CANDIDATE_BUCKETS
    ensures next == AddRow(counts, c, human)
  {
    next := counts[(c, Unfavorable) := counts[(c, Unfavorable)] + human.unfavorable];
    next := next[(c, Neutral) := next[(c, Neutral)] + human.neutral];
    next := next[(c, Favorable) := next[(c, Favorable)] + human.favorable];
  }

  /** One pass over the items, adding three counts for each described one. */
  method BuildContingency(items: seq<ItemEvaluation>) returns (table: Option<Contingency>)
    ensures table.None? <==> exists k :: 0 <= k < |items| && items[k].status == Described
                                         && (items[k].bucket.None? || items[k].bucket == Some(Abstention))
    ensures table.Some? ==> table.value.cells == Cells(items) && table.value.denominator == CellSum(Cells(items))
  {
    var counts: map<(Bucket, Bucket), int> :=
      map c, b | c in {Unfavorable, Neutral, Favorable} && b in {Unfavorable, Neutral, Favorable} :: (c, b) := 0;
    assert items[..0] == [];
    for k := 0 to |items|
      invariant counts == Cells(items[..k])
      invariant forall j :: 0 <= j < k && items[j].status == Described ==>
                  items[j].bucket.Some? && items[j].bucket != Some(Abstention)
    {
      var e := items[k];
      if e.status == Described {
        if e.bucket.None? || e.bucket == Some(Abstention) {
          return None;
        }
        var c, human := e.bucket.value, e.human;
        RowIsAdded(counts, items, k, c);
        counts := AddCounts(counts, c, human);
      } else {
        UndescribedAddsNothing(counts, items, k);
      }
    }
    assert items[..|items|] == items;
    CellsAreDirectional(items);
    table := Some(Contingency(counts, CellSum(counts)));
  }

  lemma NextCells(items: seq<ItemEvaluation>, k: nat, counts: map<(Bucket, Bucket), int>)
    requires k < |items| && counts.Keys == Cells(items[..k]).Keys
    requires forall c, b :: (c, b) in counts ==>
               counts[(c, b)] == Cells(items[..k])[(c, b)] + Weight(Direction(c, b), items[k])
    ensures counts == Cells(items[..k + 1])
  {
    forall c, b | (c, b) in counts ensures counts[(c, b)] == Cells(items[..k + 1])[(c, b)] {
      SumOfSnoc(items, k, Direction(c, b));
    }
  }

  // ----- what the table conserves -----

  lemma {:induction false} SumOfThree(items: seq<ItemEvaluation>, whole: Measure, x: Measure, y: Measure, z: Measure)
    requires forall k :: 0 <= k < |items| ==>
               Weight(whole, items[k]) == Weight(x, items[k]) + Weight(y, items[k]) + Weight(z, items[k])
    ensures Sum(items, whole) == Sum(items, x) + Sum(items, y) + Sum(items, z)
  {
    if items != [] {
      SumOfThree(items[1..], whole, x, y, z);
    }
  }

  lemma {:induction false} SumOfTwo(items: seq<ItemEvaluation>, whole: Measure, x: Measure, y: Measure)
    requires forall k :: 0 <= k < |items| ==> Weight(whole, items[k]) == Weight(x, items[k]) + Weight(y, items[k])
    ensures Sum(items, whole) == Sum(items, x) + Sum(items, y)
  {
    if items != [] {
      SumOfTwo(items[1..], whole, x, y);
    }
  }

  lemma {:induction false} SumOfSame(items: seq<ItemEvaluation>, x: Measure, y: Measure)
    requires forall k :: 0 <= k < |items| ==> Weight(x, items[k]) == Weight(y, items[k])
    ensures Sum(items, x) == Sum(items, y)
  {
    if items != [] {
      SumOfSame(items[1..], x, y);
    }
  }

  lemma {:induction false} SumIsNonNegative(items: seq<ItemEvaluation>, m: Measure)
    requires forall k :: 0 <= k < |items| ==> Weight(m, items[k]) >= 0
    ensures Sum(items, m) >= 0
  {
    if items != [] {
      SumIsNonNegative(items[1..], m);
    }
  }

  lemma {:induction false} SumOfOnes(items: seq<ItemEvaluation>)
    ensures Sum(items, One) == |items|
  {
    if items != [] {
      SumOfOnes(items[1..]);
    }
  }

  /** Each row adds up to the directional responses of the items the candidate put in that bucket. */
  lemma RowsKeepDenominators(items: seq<ItemEvaluation>, c: Bucket)
    ensures Sum(items, RowOf(c)) ==
            Sum(items, Direction(c, Unfavorable)) + Sum(items, Direction(c, Neutral)) + Sum(items, Direction(c, Favorable))
  {
    SumOfThree(items, RowOf(c), Direction(c, Unfavorable), Direction(c, Neutral), Direction(c, Favorable));
  }

  lemma RowsCoverDescribed(items: seq<ItemEvaluation>)
    requires AllFacts(items)
    ensures Sum(items, DescribedDirectional) ==
            Sum(items, RowOf(Unfavorable)) + Sum(items, RowOf(Neutral)) + Sum(items, RowOf(Favorable))
  {
    forall k | 0 <= k < |items|
      ensures Weight(DescribedDirectional, items[k]) ==
              Weight(RowOf(Unfavorable), items[k]) + Weight(RowOf(Neutral), items[k]) + Weight(RowOf(Favorable), items[k])
    {
      assert Facts(items[k]);
    }
    SumOfThree(items, DescribedDirectional, RowOf(Unfavorable), RowOf(Neutral), RowOf(Favorable));
  }

  lemma DiagonalIsSameDirection(items: seq<ItemEvaluation>)
    requires AllFacts(items)
    ensures Sum(items, SameDirection) ==
            Sum(items, Direction(Unfavorable, Unfavorable)) + Sum(items, Direction(Neutral, Neutral))
            + Sum(items, Direction(Favorable, Favorable))
  {
    var u, n, f := Direction(Unfavorable, Unfavorable), Direction(Neutral, Neutral), Direction(Favorable, Favorable);
    forall k | 0 <= k < |items|
      ensures Weight(SameDirection, items[k]) == Weight(u, items[k]) + Weight(n, items[k]) + Weight(f, items[k])
    {
      assert Facts(items[k]);
    }
    SumOfThree(items, SameDirection, u, n, f);
  }

  /** Human counts are never negative, so no quantity derived from them is. */
  lemma HumanSumsAreNonNegative(items: seq<ItemEvaluation>, m: Measure)
    requires AllFacts(items)
    requires m.Direction? || m in {DescribedDirectional, ExcludedDirectional, Abstentions}
    ensures Sum(items, m) >= 0
  {
    forall k | 0 <= k < |items| ensures Weight(m, items[k]) >= 0 {
      assert Facts(items[k]);
    }
    SumIsNonNegative(items, m);
  }

  /**
  For items the evaluation built: the nine cells sum to the directional responses described, the
  diagonal to the items' own same-direction counts, each row to the denominators of its bucket,
  and the table's constructor accepts it.
  */
  lemma TableConservesResponses(ts: seq<Threshold>, items: seq<ItemEvaluation>)
    requires AllBuilt(ts, items)
    ensures var cells := Cells(items);
            && Directional(cells)
            && CellSum(cells) == Summary(items).directionalDescribed
            && cells[(Unfavorable, Unfavorable)] + cells[(Neutral, Neutral)] + cells[(Favorable, Favorable)]
               == Sum(items, SameDirection)
            && (forall c :: c in CANDIDATE_BUCKETS ==> Row(cells, c) == Sum(items, RowOf(c)))
            && ContingencyConstructed(Contingency(cells, CellSum(cells)))
  {
    AllBuiltFacts(ts, items);
    TableOfFacts(items);
  }

  lemma TableOfFacts(items: seq<ItemEvaluation>)
    requires AllFacts(items)
    ensures var cells := Cells(items);
            && Directional(cells)
            && CellSum(cells) == Sum(items, DescribedDirectional)
            && cells[(Unfavorable, Unfavorable)] + cells[(Neutral, Neutral)] + cells[(Favorable, Favorable)]
               == Sum(items, SameDirection)
            && (forall c :: c in CANDIDATE_BUCKETS ==> Row(cells, c) == Sum(items, RowOf(c)))
            && (forall k :: k in cells ==> cells[k] >= 0)
  {
    CellsAreDirectional(items);
    RowsKeepDenominators(items, Unfavorable);
    RowsKeepDenominators(items, Neutral);
    RowsKeepDenominators(items, Favorable);
    RowsCoverDescribed(items);
    DiagonalIsSameDirection(items);
    forall c, b | (c, b) in Cells(items) ensures Cells(items)[(c, b)] >= 0 {
      HumanSumsAreNonNegative(items, Direction(c, b));
    }
  }

  // ----- the table, from compound outputs and original responses alone -----

  /** A successful result on sufficient coverage whose compound output lies in the interval of `c`. */
  predicate Lands(e: ItemEvaluation, c: Bucket) {
    && e.resultStatus == Success && e.coverage == Sufficient
    && e.rawCompound.Some? && InInterval(c, e.rawCompound.value)
  }

  /** The responses to the options mapped to `b`, over the items whose compound output lands in `c`. */
  function ResponsesLanding(items: seq<ItemEvaluation>, c: Bucket, b: Bucket): int {
    if items == [] then 0
    else (if Lands(items[0], c) then Mass(items[0].counts, LABELS, b) else 0) + ResponsesLanding(items[1..], c, b)
  }

  lemma BuiltLands(ts: seq<Threshold>, e: ItemEvaluation, c: Bucket, b: Bucket)
    requires Built(ts, e)
    ensures Weight(Direction(c, b), e) == if Lands(e, c) then Mass(e.counts, LABELS, b) else 0
  {
    var position: nat, item: Synthesis, r: CandidateResult :|
      ValidCounts(item.counts) && ResultConstructed(r) && EvaluateItem(ts, position, item, r) == Evaluated(e);
    ItemReadsItsInputs(ts, position, item, r, e);
    BuiltFacts(ts, e);
    CollapseIsTheMapping(e.counts, b);
  }

  lemma {:induction false} DirectionsLand(ts: seq<Threshold>, items: seq<ItemEvaluation>, c: Bucket, b: Bucket)
    requires AllBuilt(ts, items)
    ensures Sum(items, Direction(c, b)) == ResponsesLanding(items, c, b)
  {
    if items != [] {
      assert Built(ts, items[0]);
      BuiltLands(ts, items[0], c, b);
      assert AllBuilt(ts, items[1..]) by {
        forall k | 0 <= k < |items[1..]| ensures Built(ts, items[1..][k]) {
          assert Built(ts, items[k + 1]);
        }
      }
      DirectionsLand(ts, items[1..], c, b);
    }
  }

  /**
  Each cell counts the responses to the options of its human direction, over the items whose compound
  output lies in the interval of its candidate direction; each row, all three directions of those items.
  */
  lemma TableReadsTheCompounds(ts: seq<Threshold>, items: seq<ItemEvaluation>, c: Bucket)
    requires AllBuilt(ts, items) && c in CANDIDATE_BUCKETS
    ensures var cells := Cells(items);
            && Directional(cells)
            && (forall b :: b in CANDIDATE_BUCKETS ==> cells[(c, b)] == ResponsesLanding(items, c, b))
            && Row(cells, c) ==
               ResponsesLanding(items, c, Unfavorable) + ResponsesLanding(items, c, Neutral)
               + ResponsesLanding(items, c, Favorable)
  {
    CellsAreDirectional(items);
    DirectionsLand(ts, items, c, Unfavorable);
    DirectionsLand(ts, items, c, Neutral);
    DirectionsLand(ts, items, c, Favorable);
  }

  /** The table and the summary depend on which items there are, not on their order. */
  lemma OrderIsIrrelevant(xs: seq<ItemEvaluation>, ys: seq<ItemEvaluation>)
    requires multiset(xs) == multiset(ys)
    ensures Cells(xs) == Cells(ys) && Summary(xs) == Summary(ys)
  {
    forall c, b | (c, b) in Cells(xs) ensures Cells(xs)[(c, b)] == Cells(ys)[(c, b)] {
      SumIgnoresOrder(xs, ys, Direction(c, b));
    }
    assert |xs| == |multiset(xs)| == |multiset(ys)| == |ys|;
    SumIgnoresOrder(xs, ys, HasResult(Success));
    SumIgnoresOrder(xs, ys, HasResult(Abstained));
    SumIgnoresOrder(xs, ys, HasResult(Failed));
    SumIgnoresOrder(xs, ys, HasCoverage(Sufficient));
    SumIgnoresOrder(xs, ys, HasCoverage(Insufficient));
    SumIgnoresOrder(xs, ys, HasStatus(Described));
    SumIgnoresOrder(xs, ys, DescribedDirectional);
    SumIgnoresOrder(xs, ys, Abstentions);
  }

  // ----- the lifecycle summary -----

  datatype Lifecycle = Lifecycle(
    total: int, successes: int, abstentions: int, failures: int, sufficient: int, insufficient: int,
    described: int, directionalDescribed: int, abstentionsPreserved: int)

  function Summary(items: seq<ItemEvaluation>): Lifecycle {
    Lifecycle(
      |items|, Sum(items, HasResult(Success)), Sum(items, HasResult(Abstained)), Sum(items, HasResult(Failed)),
      Sum(items, HasCoverage(Sufficient)), Sum(items, HasCoverage(Insufficient)),
      Sum(items, HasStatus(Described)), Sum(items, DescribedDirectional), Sum(items, Abstentions))
  }

  ghost predicate LifecycleConstructed(l: Lifecycle) {
    && l.total >= 0 && l.successes >= 0 && l.abstentions >= 0 && l.failures >= 0 && l.sufficient >= 0
    && l.insufficient >= 0 && l.described >= 0 && l.directionalDescribed >= 0 && l.abstentionsPreserved >= 0
    && l.successes + l.abstentions + l.failures == l.total
    && l.sufficient + l.insufficient == l.total
  }

  /** Whether one item is counted under a status, a result or a coverage. */
  predicate CountedAs(m: Measure, e: ItemEvaluation)
    requires m.HasStatus? || m.HasResult? || m.HasCoverage?
  {
    match m
    case HasStatus(s) => e.status == s
    case HasResult(r) => e.resultStatus == r
    case HasCoverage(c) => e.coverage == c
  }

  function Counted(items: seq<ItemEvaluation>, m: Measure, n: nat): set<int>
    requires n <= |items| && (m.HasStatus? || m.HasResult? || m.HasCoverage?)
  {
    set k | 0 <= k < n && CountedAs(m, items[k])
  }

  lemma CountedNext(items: seq<ItemEvaluation>, m: Measure, n: nat)
    requires n < |items| && (m.HasStatus? || m.HasResult? || m.HasCoverage?)
    ensures |Counted(items, m, n + 1)| == |Counted(items, m, n)| + Weight(m, items[n])
  {
    assert Counted(items, m, n + 1) == Counted(items, m, n) + if CountedAs(m, items[n]) then {n} else {};
  }

  lemma {:induction false} SumIsCardinality(items: seq<ItemEvaluation>, m: Measure, n: nat)
    requires n <= |items| && (m.HasStatus? || m.HasResult? || m.HasCoverage?)
    ensures Sum(items[..n], m) == |Counted(items, m, n)|
  {
    if n > 0 {
      SumIsCardinality(items, m, n - 1);
      CountedNext(items, m, n - 1);
      SumOfSnoc(items, n - 1, m);
    }
  }

  /** The positions of the items with this result, this coverage, this status. */
  function WithResult(items: seq<ItemEvaluation>, r: ResultStatus): set<int> {
    set k | 0 <= k < |items| && items[k].resultStatus == r
  }

  function WithCoverage(items: seq<ItemEvaluation>, c: Coverage): set<int> {
    set k | 0 <= k < |items| && items[k].coverage == c
  }

  function WithStatus(items: seq<ItemEvaluation>, s: ItemStatus): set<int> {
    set k | 0 <= k < |items| && items[k].status == s
  }

  lemma CountedByField(items: seq<ItemEvaluation>, r: ResultStatus, c: Coverage, s: ItemStatus)
    ensures Sum(items, HasResult(r)) == |WithResult(items, r)|
    ensures Sum(items, HasCoverage(c)) == |WithCoverage(items, c)|
    ensures Sum(items, HasStatus(s)) == |WithStatus(items, s)|
  {
    var n := |items|;
    assert items[..n] == items;
    SumIsCardinality(items, HasResult(r), n);
    SumIsCardinality(items, HasCoverage(c), n);
    SumIsCardinality(items, HasStatus(s), n);
    assert Counted(items, HasResult(r), n) == WithResult(items, r);
    assert Counted(items, HasCoverage(c), n) == WithCoverage(items, c);
    assert Counted(items, HasStatus(s), n) == WithStatus(items, s);
  }

  /** Every count of the summary is the number of items it names. */
  lemma SummaryCountsItems(items: seq<ItemEvaluation>)
    ensures var l := Summary(items);
            && l.total == |items| && l.described == |WithStatus(items, Described)|
            && l.successes == |WithResult(items, Success)| && l.abstentions == |WithResult(items, Abstained)|
            && l.failures == |WithResult(items, Failed)|
            && l.sufficient == |WithCoverage(items, Sufficient)|
            && l.insufficient == |WithCoverage(items, Insufficient)|
  {
    CountedByField(items, Success, Sufficient, Described);
    CountedByField(items, Abstained, Insufficient, Described);
    CountedByField(items, Failed, Insufficient, Described);
  }

  /**
  No human response is lost or counted twice from the six options to the summary: described
  directions, directions of excluded items and preserved abstentions make up all of them.
  */
  lemma ResponsesAreConserved(ts: seq<Threshold>, items: seq<ItemEvaluation>)
    requires AllBuilt(ts, items)
    ensures Sum(items, OriginalResponses) ==
            Summary(items).directionalDescribed + Sum(items, ExcludedDirectional) + Summary(items).abstentionsPreserved
    ensures Summary(items).directionalDescribed >= 0 && Summary(items).abstentionsPreserved >= 0
    ensures Sum(items, ExcludedDirectional) >= 0
  {
    AllBuiltFacts(ts, items);
    OriginalsAddUp(items);
    HumanSumsAreNonNegative(items, DescribedDirectional);
    HumanSumsAreNonNegative(items, ExcludedDirectional);
    HumanSumsAreNonNegative(items, Abstentions);
  }

  lemma OriginalsAddUp(items: seq<ItemEvaluation>)
    requires AllFacts(items)
    ensures Sum(items, OriginalResponses) ==
            Sum(items, DescribedDirectional) + Sum(items, ExcludedDirectional) + Sum(items, Abstentions)
  {
    forall k | 0 <= k < |items|
      ensures Weight(OriginalResponses, items[k]) ==
              Weight(DescribedDirectional, items[k]) + Weight(ExcludedDirectional, items[k]) + Weight(Abstentions, items[k])
    {
      assert Facts(items[k]);
    }
    SumOfThree(items, OriginalResponses, DescribedDirectional, ExcludedDirectional, Abstentions);
  }

  lemma OneResultEach(e: ItemEvaluation)
    requires Facts(e)
    ensures 1 == Weight(HasResult(Success), e) + Weight(HasResult(Abstained), e) + Weight(HasResult(Failed), e)
  {
  }

  lemma PartitionOfThree(items: seq<ItemEvaluation>, x: Measure, y: Measure, z: Measure)
    requires forall k :: 0 <= k < |items| ==> 1 == Weight(x, items[k]) + Weight(y, items[k]) + Weight(z, items[k])
    ensures Sum(items, x) + Sum(items, y) + Sum(items, z) == |items|
  {
    SumOfThree(items, One, x, y, z);
    SumOfOnes(items);
  }

  lemma ResultsPartition(items: seq<ItemEvaluation>)
    requires AllFacts(items)
    ensures Sum(items, HasResult(Success)) + Sum(items, HasResult(Abstained)) + Sum(items, HasResult(Failed)) == |items|
  {
    forall k | 0 <= k < |items|
      ensures 1 == Weight(HasResult(Success), items[k]) + Weight(HasResult(Abstained), items[k]) + Weight(HasResult(Failed), items[k])
    {
      OneResultEach(items[k]);
    }
    PartitionOfThree(items, HasResult(Success), HasResult(Abstained), HasResult(Failed));
  }

  lemma CoveragePartitions(items: seq<ItemEvaluation>)
    ensures Sum(items, HasCoverage(Sufficient)) + Sum(items, HasCoverage(Insufficient)) == |items|
  {
    SumOfTwo(items, One, HasCoverage(Sufficient), HasCoverage(Insufficient));
    SumOfOnes(items);
  }

  lemma SuccessesSplit(items: seq<ItemEvaluation>)
    requires AllFacts(items)
    ensures Sum(items, HasResult(Success)) == Sum(items, HasStatus(Described)) + Sum(items, HasStatus(InsufficientCoverage))
  {
    var a, b, c := HasResult(Success), HasStatus(Described), HasStatus(InsufficientCoverage);
    forall k | 0 <= k < |items| ensures Weight(a, items[k]) == Weight(b, items[k]) + Weight(c, items[k]) {
      assert Facts(items[k]);
    }
    SumOfTwo(items, a, b, c);
  }

  lemma StatusIsResult(items: seq<ItemEvaluation>, result: ResultStatus, status: ItemStatus)
    requires AllFacts(items)
    requires (result, status) in {(Abstained, CandidateAbstained), (Failed, CandidateFailed)}
    ensures Sum(items, HasResult(result)) == Sum(items, HasStatus(status))
  {
    forall k | 0 <= k < |items| ensures Weight(HasResult(result), items[k]) == Weight(HasStatus(status), items[k]) {
      assert Facts(items[k]);
    }
    SumOfSame(items, HasResult(result), HasStatus(status));
  }

  lemma CountsAreNonNegative(items: seq<ItemEvaluation>, m: Measure)
    requires m.HasResult? || m.HasCoverage? || m.HasStatus?
    ensures Sum(items, m) >= 0
  {
    SumIsNonNegative(items, m);
  }

  /**
  The four statuses partition the corpus and line up with the summary's counts, which its
  constructor therefore accepts.
  */
  lemma StatusesPartitionTheCorpus(ts: seq<Threshold>, items: seq<ItemEvaluation>)
    requires AllBuilt(ts, items)
    ensures var l := Summary(items);
            && l.successes == l.described + Sum(items, HasStatus(InsufficientCoverage))
            && l.abstentions == Sum(items, HasStatus(CandidateAbstained))
            && l.failures == Sum(items, HasStatus(CandidateFailed))
            && l.described + Sum(items, HasStatus(InsufficientCoverage))
               + Sum(items, HasStatus(CandidateAbstained)) + Sum(items, HasStatus(CandidateFailed)) == |items|
            && LifecycleConstructed(l)
  {
    AllBuiltFacts(ts, items);
    ResultsPartition(items);
    CoveragePartitions(items);
    SuccessesSplit(items);
    StatusIsResult(items, Abstained, CandidateAbstained);
    StatusIsResult(items, Failed, CandidateFailed);
    ResponsesAreConserved(ts, items);
    CountsAreNonNegative(items, HasResult(Success));
    CountsAreNonNegative(items, HasResult(Abstained));
    CountsAreNonNegative(items, HasResult(Failed));
    CountsAreNonNegative(items, HasCoverage(Sufficient));
    CountsAreNonNegative(items, HasCoverage(Insufficient));
    CountsAreNonNegative(items, HasStatus(Described));
  }
}
