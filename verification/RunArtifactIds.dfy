/**
The IDs under which runners store their artifacts: a run's own ID, a colon, and a fixed name.

Run IDs and experiment IDs may contain colons themselves.  No name does, so an ID still tells
which run and which name it was made from.
*/
module RunArtifactIds {

  /** What a witness run or an adjudicated run stores under its own run ID. */
  datatype Kind =
    | CheckpointVerification
    | WitnessDecision | WitnessAbstention | WitnessCompletion | WitnessTerminalAbstention
    | AdjudicationDecision | AdjudicationAbstention | AdjudicationCompletion | AdjudicationTerminalAbstention

  const WITNESS := "adjudicator-checkpoint-witness-"
  const ADJUDICATION := "conflict-adjudication-"
  const DECISION := "decision"
  const ABSTENTION := "abstention"
  const COMPLETION := "completion"
  const TERMINAL := "terminal-"

  function Name(k: Kind): string {
    match k
    case CheckpointVerification => "adjudicator-credential-" + "revocation-checkpoint-" + "verification"
    case WitnessDecision => WITNESS + DECISION
    case WitnessAbstention => WITNESS + ABSTENTION
    case WitnessCompletion => WITNESS + COMPLETION
    case WitnessTerminalAbstention => WITNESS + TERMINAL + ABSTENTION
    case AdjudicationDecision => WITNESS + ADJUDICATION + DECISION
    case AdjudicationAbstention => WITNESS + ADJUDICATION + ABSTENTION
    case AdjudicationCompletion => WITNESS + ADJUDICATION + COMPLETION
    case AdjudicationTerminalAbstention => WITNESS + ADJUDICATION + TERMINAL + ABSTENTION
  }

  function Id(run: string, k: Kind): string {
    run + ":" + Name(k)
  }

  predicate NoColon(s: string) {
    ':' !in s
  }

  lemma WordsHaveNoColon()
    ensures NoColon(WITNESS) && NoColon(DECISION) && NoColon(ABSTENTION) && NoColon(COMPLETION) && NoColon(TERMINAL)
  {
  }

  lemma AdjudicationHasNoColon()
    ensures NoColon(ADJUDICATION)
  {
  }

  lemma VerificationHasNoColon()
    ensures NoColon("adjudicator-credential-" + "revocation-checkpoint-" + "verification")
  {
    assert NoColon("adjudicator-credential-");
    assert NoColon("revocation-checkpoint-");
    assert NoColon("verification");
  }

  lemma NameHasNoColon(k: Kind)
    ensures NoColon(Name(k))
  {
    WordsHaveNoColon();
    AdjudicationHasNoColon();
    VerificationHasNoColon();
  }

  function NameLength(k: Kind): nat {
    match k
    case CheckpointVerification => 57
    case WitnessDecision => 39
    case WitnessAbstention => 41
    case WitnessCompletion => 41
    case WitnessTerminalAbstention => 50
    case AdjudicationDecision => 61
    case AdjudicationAbstention => 63
    case AdjudicationCompletion => 63
    case AdjudicationTerminalAbstention => 72
  }

  lemma NamesHaveLengths(k: Kind)
    ensures |Name(k)| == NameLength(k)
  {
  }

  lemma NamesDiffer(k: Kind, l: Kind)
    requires Name(k) == Name(l)
    ensures k == l
  {
    NamesHaveLengths(k);
    NamesHaveLengths(l);
    assert Name(WitnessAbstention)[31] == 'a' && Name(WitnessCompletion)[31] == 'c';
    assert Name(AdjudicationAbstention)[53] == 'a' && Name(AdjudicationCompletion)[53] == 'c';
  }

  lemma AfterTheColon(run: string, name: string)
    requires NoColon(name)
    ensures forall i :: |run| < i < |run + ":" + name| ==> (run + ":" + name)[i] != ':'
  {
    forall i | |run| < i < |run + ":" + name| ensures (run + ":" + name)[i] != ':' {
      assert (run + ":" + name)[i] == name[i - |run| - 1];
    }
  }

  /** Whatever colons the run IDs contain, equal IDs come from the same run and the same name. */
  lemma IdsAreInjective(run: string, k: Kind, other: string, l: Kind)
    requires Id(run, k) == Id(other, l)
    ensures run == other && k == l
  {
    var s := Id(run, k);
    NameHasNoColon(k);
    NameHasNoColon(l);
    AfterTheColon(run, Name(k));
    AfterTheColon(other, Name(l));
    assert s[|run|] == ':' && s[|other|] == ':';
    assert run == s[..|run|] == other;
    assert Name(k) == s[|run| + 1..] == Name(l);
    NamesDiffer(k, l);
  }

  /** IDs outside every run's own names: what delegated runners and publications store. */
  ghost predicate Foreign(id: string) {
    forall run: string, k: Kind :: k != CheckpointVerification ==> id != Id(run, k)
  }
}
