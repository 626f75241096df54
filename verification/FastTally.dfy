/** The fast-round tally against its history: which decision a stream of votes produces. */
module FastTally {
  import opened Types
  import opened SetFacts
  import opened CoordinatorRule
  import opened Messages
  import opened FastConsensus

  /** Feed votes one by one; collect the decisions emitted. */
  function Feed(s: FastState, votes: seq<FastRoundPhase2bMessage>): (FastState, seq<Proposal>) {
    if votes == [] then (s, [])
    else
      var (s0, d0) := Feed(s, votes[..|votes| - 1]);
      var (s1, outs) := OnFastVote(s0, votes[|votes| - 1]);
      (s1, if outs != [] && outs[0].Decision? then d0 + [outs[0].value] else d0)
  }

  /** The value of each sender's first vote in the configuration. */
  function FirstVotes(votes: seq<FastRoundPhase2bMessage>, configurationId: int): map<Endpoint, Proposal> {
    if votes == [] then map[]
    else
      var earlier := FirstVotes(votes[..|votes| - 1], configurationId);
      var m := votes[|votes| - 1];
      if m.configurationId == configurationId && m.sender.Some? && m.sender.value !in earlier
      then earlier[m.sender.value := m.endpoints] else earlier
  }

  /** The senders whose first vote was `v`. */
  function Supporters(first: map<Endpoint, Proposal>, v: Proposal): set<Endpoint> {
    set a | a in first && first[a] == v
  }

  /** The count that decides: the fast quorum, or the first vote in an empty membership. */
  function Needed(n: nat): nat { if n == 0 then 1 else FastQuorum(n) }

  /** Some value reached the fast quorum. */
  ghost predicate Reached(first: map<Endpoint, Proposal>, n: nat) {
    exists v :: |Supporters(first, v)| >= Needed(n)
  }

  /** `v` reached the quorum with vote `i`, and nothing did before. */
  ghost predicate WinsAt(votes: seq<FastRoundPhase2bMessage>, configurationId: int, n: nat, i: nat, v: Proposal) {
    && i < |votes| && votes[i].endpoints == v
    && |Supporters(FirstVotes(votes[..i + 1], configurationId), v)| == Needed(n)
    && !Reached(FirstVotes(votes[..i], configurationId), n)
  }

  /** The object's counters are the supporters of the first votes. */
  ghost predicate TallyIs(s: FastState, first: map<Endpoint, Proposal>) {
    && s.votesReceived == first.Keys
    && forall v {:trigger Votes(s, v)} :: Votes(s, v) == |Supporters(first, v)|
  }

  lemma SupportersStep(first: map<Endpoint, Proposal>, a: Endpoint, w: Proposal, v: Proposal)
    requires a !in first
    ensures |Supporters(first[a := w], v)| == |Supporters(first, v)| + if v == w then 1 else 0
  {
    assert Supporters(first[a := w], v) == Supporters(first, v) + if v == w then {a} else {};
  }

  lemma TallyCounts(s: FastState, first: map<Endpoint, Proposal>, m: FastRoundPhase2bMessage)
    requires TallyIs(s, first) && !s.decided
    requires m.configurationId == s.configurationId && m.sender.Some? && m.sender.value !in first
    ensures TallyIs(OnFastVote(s, m).0, first[m.sender.value := m.endpoints])
  {
    var s' := OnFastVote(s, m).0;
    forall v ensures Votes(s', v) == |Supporters(first[m.sender.value := m.endpoints], v)| {
      SupportersStep(first, m.sender.value, m.endpoints, v);
      assert Votes(s, v) == |Supporters(first, v)|;
    }
  }

  /** Until a quorum is reached the tally is exact and nothing is decided; from then on there is
      exactly one decision, for the value that reached it first. */
  ghost predicate Refines(me: Endpoint, configurationId: int, n: nat, votes: seq<FastRoundPhase2bMessage>) {
    var (s, decisions) := Feed(InitFast(me, configurationId, n), votes);
    var first := FirstVotes(votes, configurationId);
    && s.configurationId == configurationId && s.membershipSize == n
    && (s.decided <==> Reached(first, n))
    && (!s.decided ==> decisions == [] && TallyIs(s, first))
    && (s.decided ==> |decisions| == 1 && exists i :: WinsAt(votes, configurationId, n, i, decisions[0]))
  }

  lemma RefinesAfterDecision(me: Endpoint, configurationId: int, n: nat,
                             front: seq<FastRoundPhase2bMessage>, m: FastRoundPhase2bMessage)
    requires Refines(me, configurationId, n, front) && Feed(InitFast(me, configurationId, n), front).0.decided
    ensures Refines(me, configurationId, n, front + [m])
  {
    var votes, d := front + [m], Feed(InitFast(me, configurationId, n), front).1;
    assert votes[..|votes| - 1] == front;
    var i: nat :| WinsAt(front, configurationId, n, i, d[0]);
    assert votes[..i + 1] == front[..i + 1] && votes[..i] == front[..i];
    assert WinsAt(votes, configurationId, n, i, d[0]);
    StaysReached(FirstVotes(front, configurationId), FirstVotes(votes, configurationId), n);
  }

  lemma RefinesNewVote(me: Endpoint, configurationId: int, n: nat,
                       front: seq<FastRoundPhase2bMessage>, m: FastRoundPhase2bMessage)
    requires Refines(me, configurationId, n, front)
    requires !Feed(InitFast(me, configurationId, n), front).0.decided
    requires m.configurationId == configurationId && m.sender.Some?
    requires m.sender.value !in FirstVotes(front, configurationId)
    ensures Refines(me, configurationId, n, front + [m])
  {
    var votes, first := front + [m], FirstVotes(front, configurationId);
    var s := Feed(InitFast(me, configurationId, n), front).0;
    assert votes[..|votes| - 1] == front && votes[..|front| + 1] == votes && votes[..|front|] == front;
    OneVoteReaches(s, first, m, n);
    TallyCounts(s, first, m);
    if Reached(FirstVotes(votes, configurationId), n) {
      var i, decisions := |front|, Feed(InitFast(me, configurationId, n), votes).1;
      assert decisions == [m.endpoints];
      assert WinsAt(votes, configurationId, n, i, decisions[0]);
    }
  }

  lemma {:induction false} TallyRefines(me: Endpoint, configurationId: int, n: nat, votes: seq<FastRoundPhase2bMessage>)
    ensures Refines(me, configurationId, n, votes)
  {
    if votes == [] {
      forall v ensures Supporters(map[], v) == {} {}
    } else {
      var front, m := votes[..|votes| - 1], votes[|votes| - 1];
      assert votes == front + [m];
      TallyRefines(me, configurationId, n, front);
      if Feed(InitFast(me, configurationId, n), front).0.decided {
        RefinesAfterDecision(me, configurationId, n, front, m);
      } else if m.configurationId == configurationId && m.sender.Some?
                && m.sender.value !in FirstVotes(front, configurationId) {
        RefinesNewVote(me, configurationId, n, front, m);
      }
    }
  }

  lemma StaysReached(first: map<Endpoint, Proposal>, first': map<Endpoint, Proposal>, n: nat)
    requires Reached(first, n) && forall a :: a in first ==> a in first' && first'[a] == first[a]
    ensures Reached(first', n)
  {
    var v :| |Supporters(first, v)| >= Needed(n);
    SubsetSize(Supporters(first, v), Supporters(first', v));
  }

  /** A new first vote reaches the quorum exactly when its own value's count does. */
  lemma OneVoteReaches(s: FastState, first: map<Endpoint, Proposal>, m: FastRoundPhase2bMessage, n: nat)
    requires TallyIs(s, first) && !s.decided && !Reached(first, n) && s.membershipSize == n
    requires m.configurationId == s.configurationId && m.sender.Some? && m.sender.value !in first
    ensures var first' := first[m.sender.value := m.endpoints];
            && (Reached(first', n) <==> Votes(s, m.endpoints) + 1 == Needed(n))
            && (Reached(first', n) ==> |Supporters(first', m.endpoints)| == Needed(n))
            && (Reached(first', n) <==> OnFastVote(s, m).0.decided)
            && (Reached(first', n) <==> OnFastVote(s, m).1 == [Decision(m.endpoints)])
            && (!Reached(first', n) <==> OnFastVote(s, m).1 == [])
  {
    var first' := first[m.sender.value := m.endpoints];
    assert Votes(s, m.endpoints) == |Supporters(first, m.endpoints)| < Needed(n);
    SupportersStep(first, m.sender.value, m.endpoints, m.endpoints);
    if Reached(first', n) {
      var v :| |Supporters(first', v)| >= Needed(n);
      SupportersStep(first, m.sender.value, m.endpoints, v);
      assert |Supporters(first, v)| < Needed(n);
    }
    TallyCounts(s, first, m);
    SubsetSize(Supporters(first', m.endpoints), first'.Keys);
  }

  lemma {:induction false} FirstVotesStay(votes: seq<FastRoundPhase2bMessage>, more: seq<FastRoundPhase2bMessage>,
                                          configurationId: int, a: Endpoint)
    requires a in FirstVotes(votes, configurationId)
    ensures a in FirstVotes(votes + more, configurationId)
            && FirstVotes(votes + more, configurationId)[a] == FirstVotes(votes, configurationId)[a]
  {
    if more == [] {
      assert votes + more == votes;
    } else {
      FirstVotesStay(votes, more[..|more| - 1], configurationId, a);
      assert (votes + more)[..|votes + more| - 1] == votes + more[..|more| - 1];
    }
  }

  lemma {:induction false} FirstVotesSenders(votes: seq<FastRoundPhase2bMessage>, configurationId: int,
                                             members: set<Endpoint>)
    requires forall m :: m in votes && m.sender.Some? ==> m.sender.value in members
    ensures FirstVotes(votes, configurationId).Keys <= members
  {
    if votes != [] {
      assert votes[|votes| - 1] in votes;
      FirstVotesSenders(votes[..|votes| - 1], configurationId, members);
    }
  }

  lemma SupportGrows(votes: seq<FastRoundPhase2bMessage>, i: nat, configurationId: int, v: Proposal)
    requires i <= |votes|
    ensures |Supporters(FirstVotes(votes[..i], configurationId), v)|
            <= |Supporters(FirstVotes(votes, configurationId), v)|
  {
    var early := FirstVotes(votes[..i], configurationId);
    assert votes[..i] + votes[i..] == votes;
    forall a | a in early
      ensures a in FirstVotes(votes, configurationId) && FirstVotes(votes, configurationId)[a] == early[a]
    {
      FirstVotesStay(votes[..i], votes[i..], configurationId, a);
    }
    SubsetSize(Supporters(early, v), Supporters(FirstVotes(votes, configurationId), v));
  }

  /** A decided value is still supported by a quorum of first votes. */
  lemma WinnerSupported(me: Endpoint, configurationId: int, n: nat, votes: seq<FastRoundPhase2bMessage>, v: Proposal)
    requires v in Feed(InitFast(me, configurationId, n), votes).1
    ensures |Supporters(FirstVotes(votes, configurationId), v)| >= Needed(n)
  {
    TallyRefines(me, configurationId, n, votes);
    var i: nat :| WinsAt(votes, configurationId, n, i, v);
    SupportGrows(votes, i + 1, configurationId, v);
  }

  /** More than floor((N - 1) / 4) first votes for other values rule `v` out, whatever follows. */
  lemma OutvotedForever(me: Endpoint, configurationId: int, members: set<Endpoint>,
                        votes: seq<FastRoundPhase2bMessage>, more: seq<FastRoundPhase2bMessage>, v: Proposal)
    requires members != {}
    requires forall m :: m in votes + more && m.sender.Some? ==> m.sender.value in members
    requires var first := FirstVotes(votes, configurationId);
             |first.Keys - Supporters(first, v)| > (|members| - 1) / 4
    ensures v !in Feed(InitFast(me, configurationId, |members|), votes + more).1
  {
    var first, last := FirstVotes(votes, configurationId), FirstVotes(votes + more, configurationId);
    var others := first.Keys - Supporters(first, v);
    FirstVotesSenders(votes + more, configurationId, members);
    forall a | a in others ensures a in members && a !in Supporters(last, v) {
      FirstVotesStay(votes, more, configurationId, a);
    }
    SubsetSize(Supporters(last, v), members - others);
    if v in Feed(InitFast(me, configurationId, |members|), votes + more).1 {
      WinnerSupported(me, configurationId, |members|, votes + more, v);
    }
  }
}
