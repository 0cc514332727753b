/**
Event histories: one chain of status events per adjudicator inside one ordered ledger.

`Chain` is the grouping the validator builds.  `Linked` is the rule without any grouping: an
event supersedes the latest earlier event of its own adjudicator, and does not predate it.
*/
module EventHistory {
  import opened Artifacts
  import opened Sequences
  import opened Governance

  datatype Event = Event(
    reference: Ref, eventId: string, attestationRef: Ref, adjudicatorId: string,
    issuerId: string, issuerRevision: string, effect: CredentialStatus,
    effectiveAt: int, supersedes: Option<string>)
  {
    /** The artifact ID derives from the event ID. */
    predicate Constructed() {
      eventId != "" && reference.id == EVENT_PREFIX + eventId
    }
  }

  const EVENT_PREFIX := "adjudicator-credential-revocation-event:"

  ghost predicate DistinctIds(events: seq<Event>) {
    forall i, j :: 0 <= i < j < |events| ==> events[i].eventId != events[j].eventId
  }

  function Front<T>(s: seq<T>): seq<T>
    requires s != []
  {
    s[..|s| - 1]
  }

  function Last<T>(s: seq<T>): T
    requires s != []
  {
    s[|s| - 1]
  }

  // ----- grouping -----

  function Chain(events: seq<Event>, adjudicatorId: string): seq<Event> {
    if events == [] then []
    else if Last(events).adjudicatorId == adjudicatorId then Chain(Front(events), adjudicatorId) + [Last(events)]
    else Chain(Front(events), adjudicatorId)
  }

  /** Where in the ledger the chain's events stand. */
  ghost function Positions(events: seq<Event>, adjudicatorId: string): seq<nat> {
    if events == [] then []
    else if Last(events).adjudicatorId == adjudicatorId then
      Positions(Front(events), adjudicatorId) + [|events| - 1]
    else Positions(Front(events), adjudicatorId)
  }

  predicate LinkedAfter(chain: seq<Event>, e: Event) {
    if chain == [] then e.supersedes == None
    else e.supersedes == Some(Last(chain).eventId) && Last(chain).effectiveAt <= e.effectiveAt
  }

  predicate LinearChain(chain: seq<Event>) {
    chain == [] || (LinearChain(Front(chain)) && LinkedAfter(Front(chain), Last(chain)))
  }

  /** The latest position before `n` holding an event of this adjudicator. */
  function LatestBefore(events: seq<Event>, adjudicatorId: string, n: nat): Option<nat>
    requires n <= |events|
  {
    if n == 0 then None
    else if events[n - 1].adjudicatorId == adjudicatorId then Some(n - 1)
    else LatestBefore(events, adjudicatorId, n - 1)
  }

  predicate Linked(events: seq<Event>, i: nat)
    requires i < |events|
  {
    match LatestBefore(events, events[i].adjudicatorId, i)
    case None => events[i].supersedes == None
    case Some(j) =>
      j < i && events[i].supersedes == Some(events[j].eventId) && events[j].effectiveAt <= events[i].effectiveAt
  }

  lemma {:induction false} LatestBeforeIsLatest(events: seq<Event>, adjudicatorId: string, n: nat)
    requires n <= |events|
    ensures match LatestBefore(events, adjudicatorId, n)
            case None => forall k :: 0 <= k < n ==> events[k].adjudicatorId != adjudicatorId
            case Some(j) => && j < n && events[j].adjudicatorId == adjudicatorId
                            && forall k :: j < k < n ==> events[k].adjudicatorId != adjudicatorId
  {
    if n > 0 && events[n - 1].adjudicatorId != adjudicatorId {
      LatestBeforeIsLatest(events, adjudicatorId, n - 1);
    }
  }

  lemma {:induction false} LatestBeforeLocal(events: seq<Event>, adjudicatorId: string, n: nat, m: nat)
    requires n <= m <= |events|
    ensures LatestBefore(events[..m], adjudicatorId, n) == LatestBefore(events, adjudicatorId, n)
  {
    if n > 0 {
      LatestBeforeLocal(events, adjudicatorId, n - 1, m);
    }
  }

  lemma LinkedLocal(events: seq<Event>, i: nat, m: nat)
    requires i < m <= |events|
    ensures Linked(events[..m], i) <==> Linked(events, i)
  {
    LatestBeforeLocal(events, events[i].adjudicatorId, i, m);
    LatestBeforeIsLatest(events, events[i].adjudicatorId, i);
  }

  /** Positions are the adjudicator's ledger positions in order, and the chain reads them off. */
  lemma {:induction false} PositionsOfChain(events: seq<Event>, adjudicatorId: string)
    ensures var ps := Positions(events, adjudicatorId);
            var c := Chain(events, adjudicatorId);
            && |ps| == |c|
            && (forall k :: 0 <= k < |ps| ==> ps[k] < |events| && events[ps[k]] == c[k] && c[k].adjudicatorId == adjudicatorId)
            && (forall k, l :: 0 <= k < l < |ps| ==> ps[k] < ps[l])
            && (forall i :: 0 <= i < |events| && events[i].adjudicatorId == adjudicatorId ==> i in ps)
  {
    if events != [] {
      PositionsOfChain(Front(events), adjudicatorId);
      var ps := Positions(events, adjudicatorId);
      var qs := Positions(Front(events), adjudicatorId);
      forall i | 0 <= i < |events| && events[i].adjudicatorId == adjudicatorId ensures i in ps {
        if i < |events| - 1 {
          assert Front(events)[i] == events[i];
          var k :| 0 <= k < |qs| && qs[k] == i;
          assert ps[k] == i;
        } else {
          assert ps[|ps| - 1] == i;
        }
      }
    }
  }

  lemma {:induction false} LastOfChain(events: seq<Event>, adjudicatorId: string)
    ensures match LatestBefore(events, adjudicatorId, |events|)
            case None => Chain(events, adjudicatorId) == []
            case Some(j) => j < |events| && Chain(events, adjudicatorId) != []
                            && Last(Chain(events, adjudicatorId)) == events[j]
  {
    if events != [] && Last(events).adjudicatorId != adjudicatorId {
      LastOfChain(Front(events), adjudicatorId);
      LatestBeforeLocal(events, adjudicatorId, |events| - 1, |events| - 1);
    }
  }

  ghost predicate AllLinked(events: seq<Event>, adjudicatorId: string) {
    forall i :: 0 <= i < |events| && events[i].adjudicatorId == adjudicatorId ==> Linked(events, i)
  }

  lemma LastLinkedAfter(events: seq<Event>)
    requires events != []
    ensures Linked(events, |events| - 1) ==
            LinkedAfter(Chain(Front(events), Last(events).adjudicatorId), Last(events))
  {
    LastOfChain(Front(events), Last(events).adjudicatorId);
    LatestBeforeLocal(events, Last(events).adjudicatorId, |events| - 1, |events| - 1);
  }

  lemma AllLinkedFront(events: seq<Event>, adjudicatorId: string)
    requires events != []
    ensures AllLinked(events, adjudicatorId) <==>
            && AllLinked(Front(events), adjudicatorId)
            && (Last(events).adjudicatorId == adjudicatorId ==> Linked(events, |events| - 1))
  {
    var n := |events| - 1;
    forall i | 0 <= i < n ensures Linked(Front(events), i) == Linked(events, i) && Front(events)[i] == events[i] {
      LinkedLocal(events, i, n);
    }
  }

  /** A chain is linear exactly when each of its events obeys the ungrouped rule. */
  lemma {:induction false} LinearChainIsLinked(events: seq<Event>, adjudicatorId: string)
    ensures LinearChain(Chain(events, adjudicatorId)) <==> AllLinked(events, adjudicatorId)
  {
    if events != [] {
      LinearChainIsLinked(Front(events), adjudicatorId);
      AllLinkedFront(events, adjudicatorId);
      if Last(events).adjudicatorId == adjudicatorId {
        LastLinkedAfter(events);
        assert Front(Chain(events, adjudicatorId)) == Chain(Front(events), adjudicatorId);
      }
    }
  }

  lemma {:induction false} ChainOfPrefix(events: seq<Event>, adjudicatorId: string, n: nat)
    requires n <= |events|
    ensures Chain(events[..n], adjudicatorId) <= Chain(events, adjudicatorId)
    ensures forall k :: |Chain(events[..n], adjudicatorId)| <= k < |Chain(events, adjudicatorId)| ==>
              Chain(events, adjudicatorId)[k] in events[n..]
    decreases |events|
  {
    if n < |events| {
      ChainOfPrefix(Front(events), adjudicatorId, n);
      assert Front(events)[..n] == events[..n];
      assert events[n..] == Front(events)[n..] + [Last(events)];
    } else {
      assert events[..n] == events;
    }
  }

  // ----- the as-of fold -----

  function Effective(chain: seq<Event>, at: int): seq<Event> {
    if chain == [] then []
    else if Last(chain).effectiveAt <= at then Effective(Front(chain), at) + [Last(chain)]
    else Effective(Front(chain), at)
  }

  function EventIds(chain: seq<Event>): (ids: seq<string>)
    ensures |ids| == |chain|
    ensures forall i :: 0 <= i < |chain| ==> ids[i] == chain[i].eventId
  {
    seq(|chain|, i requires 0 <= i < |chain| => chain[i].eventId)
  }

  function StatusAt(base: CredentialStatus, chain: seq<Event>, at: int): CredentialStatus {
    if Effective(chain, at) == [] then base else Last(Effective(chain, at)).effect
  }

  // ----- the same status without grouping or folding -----

  /** This event is the adjudicator's own and has taken effect by then. */
  predicate InEffect(e: Event, adjudicatorId: string, at: int) {
    e.adjudicatorId == adjudicatorId && e.effectiveAt <= at
  }

  /** Ledger position `i` holds the last of the adjudicator's events in effect. */
  ghost predicate LastInEffect(events: seq<Event>, adjudicatorId: string, at: int, i: nat) {
    && i < |events| && InEffect(events[i], adjudicatorId, at)
    && forall j :: i < j < |events| ==> !InEffect(events[j], adjudicatorId, at)
  }

  ghost predicate NoneInEffect(events: seq<Event>, adjudicatorId: string, at: int) {
    forall j :: 0 <= j < |events| ==> !InEffect(events[j], adjudicatorId, at)
  }

  /** The effect of the last event in effect, or the status attested before any event. */
  ghost predicate HasStatus(
    events: seq<Event>, adjudicatorId: string, at: int, attested: CredentialStatus, status: CredentialStatus)
  {
    || (NoneInEffect(events, adjudicatorId, at) && status == attested)
    || (exists i: nat :: LastInEffect(events, adjudicatorId, at, i) && status == events[i].effect)
  }

  /** At most one position is last, and there is one unless no event is in effect. */
  lemma LastInEffectIsUnique(events: seq<Event>, adjudicatorId: string, at: int, i: nat, j: nat)
    requires LastInEffect(events, adjudicatorId, at, i)
    ensures !NoneInEffect(events, adjudicatorId, at)
    ensures LastInEffect(events, adjudicatorId, at, j) ==> i == j
  {
    assert InEffect(events[i], adjudicatorId, at);
  }

  lemma {:induction false} EffectiveByPosition(events: seq<Event>, adjudicatorId: string, at: int)
    ensures var applied := Effective(Chain(events, adjudicatorId), at);
            if applied == [] then NoneInEffect(events, adjudicatorId, at)
            else exists i: nat :: LastInEffect(events, adjudicatorId, at, i) && Last(applied) == events[i]
  {
    if events != [] {
      var n := |events| - 1;
      var front := Front(events);
      EffectiveByPosition(front, adjudicatorId, at);
      assert forall j :: 0 <= j < n ==> front[j] == events[j];
      var applied := Effective(Chain(front, adjudicatorId), at);
      if InEffect(events[n], adjudicatorId, at) {
        assert Effective(Chain(events, adjudicatorId), at) == applied + [events[n]] by {
          assert Front(Chain(events, adjudicatorId)) == Chain(front, adjudicatorId);
        }
        assert LastInEffect(events, adjudicatorId, at, n);
      } else {
        assert Effective(Chain(events, adjudicatorId), at) == applied by {
          if events[n].adjudicatorId == adjudicatorId {
            assert Front(Chain(events, adjudicatorId)) == Chain(front, adjudicatorId);
          }
        }
        if applied != [] {
          var i: nat :| LastInEffect(front, adjudicatorId, at, i) && Last(applied) == front[i];
          assert LastInEffect(events, adjudicatorId, at, i);
        }
      }
    }
  }

  /**
  The folded status is the one the ledger itself shows: the effect of the adjudicator's last event
  in effect, or the attested status, and the event named beside it is that last event.
  */
  lemma StatusByPosition(
    events: seq<Event>, adjudicatorId: string, at: int, attested: CredentialStatus, status: CredentialStatus)
    ensures HasStatus(events, adjudicatorId, at, attested, status) <==>
            status == StatusAt(attested, Chain(events, adjudicatorId), at)
  {
    EffectiveByPosition(events, adjudicatorId, at);
    if exists i: nat :: LastInEffect(events, adjudicatorId, at, i) {
      var i: nat :| LastInEffect(events, adjudicatorId, at, i);
      forall j: nat ensures LastInEffect(events, adjudicatorId, at, j) ==> i == j {
        LastInEffectIsUnique(events, adjudicatorId, at, i, j);
      }
      LastInEffectIsUnique(events, adjudicatorId, at, i, i);
    }
  }

  /** The applied events are the adjudicator's events in effect, each as often as the ledger holds it. */
  lemma {:induction false} AppliedIsAllInEffect(events: seq<Event>, adjudicatorId: string, at: int, e: Event)
    ensures multiset(Effective(Chain(events, adjudicatorId), at))[e] ==
            if InEffect(e, adjudicatorId, at) then multiset(events)[e] else 0
  {
    if events != [] {
      AppliedIsAllInEffect(Front(events), adjudicatorId, at, e);
      assert events == Front(events) + [Last(events)];
      if Last(events).adjudicatorId == adjudicatorId {
        assert Front(Chain(events, adjudicatorId)) == Chain(Front(events), adjudicatorId);
      }
    }
  }

  lemma {:induction false} LinearChainSorted(chain: seq<Event>)
    requires LinearChain(chain)
    ensures forall i, j :: 0 <= i <= j < |chain| ==> chain[i].effectiveAt <= chain[j].effectiveAt
    ensures forall i :: 0 < i < |chain| ==> chain[i].supersedes == Some(chain[i - 1].eventId)
    ensures chain != [] ==> chain[0].supersedes == None
  {
    if chain != [] {
      LinearChainSorted(Front(chain));
      assert forall i :: 0 <= i < |chain| - 1 ==> chain[i] == Front(chain)[i];
    }
  }

  /** On a linear chain the applied events are the longest prefix in effect, no more and no less. */
  lemma {:induction false} EffectiveIsLongestPrefix(chain: seq<Event>, at: int)
    requires LinearChain(chain)
    ensures Effective(chain, at) <= chain
    ensures forall k :: 0 <= k < |chain| ==> (chain[k].effectiveAt <= at <==> k < |Effective(chain, at)|)
  {
    if chain != [] {
      var front := Front(chain);
      EffectiveIsLongestPrefix(front, at);
      LinearChainSorted(chain);
      assert forall k :: 0 <= k < |front| ==> chain[k] == front[k];
      if Last(chain).effectiveAt <= at {
        assert Effective(front, at) == front;
      }
    }
  }

  /** As time moves on, what was applied stays applied, in order. */
  lemma AppliedGrowsByPrefix(chain: seq<Event>, s: int, t: int)
    requires LinearChain(chain) && s <= t
    ensures Effective(chain, s) <= Effective(chain, t)
    ensures EventIds(Effective(chain, s)) <= EventIds(Effective(chain, t))
  {
    EffectiveIsLongestPrefix(chain, s);
    EffectiveIsLongestPrefix(chain, t);
    var m := |Effective(chain, s)|;
    if m > 0 {
      assert chain[m - 1].effectiveAt <= s;
    }
  }

  /** Events that take effect only after `at` change nothing at `at`. */
  lemma {:induction false} LaterEventsDoNotApply(chain: seq<Event>, longer: seq<Event>, at: int)
    requires chain <= longer
    requires forall k :: |chain| <= k < |longer| ==> longer[k].effectiveAt > at
    ensures Effective(longer, at) == Effective(chain, at)
    decreases |longer|
  {
    if |chain| < |longer| {
      LaterEventsDoNotApply(chain, Front(longer), at);
    } else {
      assert chain == longer;
    }
  }
}
