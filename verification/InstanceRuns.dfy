/** One consensus instance fed with anything at all: how many decisions it emits, and when. A fast
    decision does not stop the inner Paxos, so there can be two. */
module InstanceRuns {
  import opened Types
  import opened SetFacts
  import opened CoordinatorRule
  import opened Messages
  import opened ClassicPaxos
  import opened FastConsensus
  import opened FastTally

  /** A call of the instance. */
  datatype Input =
    | ProposeCall(value: Proposal)
    | StartCall(nodeIndex: int)
    | HandleCall(request: Request)

  function Call(s: FastState, input: Input): (FastState, seq<Outgoing>) {
    match input
    case ProposeCall(v) => Propose(s, v)
    case StartCall(index) => StartClassicRound(s, index)
    case HandleCall(r) => HandleRequest(s, r)
  }

  /** The call makes the instance emit a decision. */
  predicate Decides(s: FastState, input: Input) {
    exists k :: 0 <= k < |Call(s, input).1| && Call(s, input).1[k].Decision?
  }

  /** The instance after the calls, and those among them that made it decide. */
  function Fed(s: FastState, inputs: seq<Input>): (FastState, seq<Input>) {
    if inputs == [] then (s, [])
    else
      var (before, verdicts) := Fed(s, inputs[..|inputs| - 1]);
      var last := inputs[|inputs| - 1];
      (Call(before, last).0, verdicts + if Decides(before, last) then [last] else [])
  }

  // ---------------------------------------------------------------- what was heard

  /** The acceptors heard of at rank `r`. */
  function Heard(inputs: seq<Input>, configurationId: int, r: Rank): set<Endpoint> {
    set k | 0 <= k < |inputs| && Accepts(inputs[k], configurationId, r) :: inputs[k].request.accept.sender.value
  }

  predicate Accepts(input: Input, configurationId: int, r: Rank) {
    && input.HandleCall? && input.request.Phase2b?
    && input.request.accept.configurationId == configurationId
    && input.request.accept.rnd == Some(r) && input.request.accept.sender.Some?
  }

  /** A majority of acceptors was heard of at one rank. */
  ghost predicate HeardMajority(inputs: seq<Input>, configurationId: int, n: nat) {
    exists r :: |Heard(inputs, configurationId, r)| > n / 2
  }

  /** The fast votes among the calls. */
  function VotesIn(inputs: seq<Input>): seq<FastRoundPhase2bMessage> {
    if inputs == [] then []
    else
      var last := inputs[|inputs| - 1];
      VotesIn(inputs[..|inputs| - 1])
      + if last.HandleCall? && last.request.FastVote? then [last.request.vote] else []
  }

  /** A fast quorum of first votes agreed. */
  ghost predicate HeardQuorum(inputs: seq<Input>, configurationId: int, n: nat) {
    Reached(FirstVotes(VotesIn(inputs), configurationId), n)
  }

  /** The fast quorum was there before any majority of acceptors. */
  ghost predicate FastCameFirst(inputs: seq<Input>, configurationId: int, n: nat) {
    exists k {:trigger inputs[..k]} :: 0 <= k <= |inputs| && QuorumAlone(inputs[..k], configurationId, n)
  }

  ghost predicate QuorumAlone(inputs: seq<Input>, configurationId: int, n: nat) {
    HeardQuorum(inputs, configurationId, n) && !HeardMajority(inputs, configurationId, n)
  }

  lemma HeardNext(front: seq<Input>, last: Input, configurationId: int, r: Rank)
    ensures Heard(front + [last], configurationId, r)
            == Heard(front, configurationId, r)
               + if Accepts(last, configurationId, r) then {last.request.accept.sender.value} else {}
  {
    var inputs := front + [last];
    assert forall k :: 0 <= k < |front| ==> inputs[k] == front[k];
    assert inputs[|front|] == last;
    forall a | a in Heard(front, configurationId, r) ensures a in Heard(inputs, configurationId, r) {
      var k :| 0 <= k < |front| && Accepts(front[k], configurationId, r) && front[k].request.accept.sender.value == a;
      assert inputs[k] == front[k];
    }
    if Accepts(last, configurationId, r) {
      assert last.request.accept.sender.value in Heard(inputs, configurationId, r);
    }
  }

  lemma MajorityStays(front: seq<Input>, last: Input, configurationId: int, n: nat)
    requires HeardMajority(front, configurationId, n)
    ensures HeardMajority(front + [last], configurationId, n)
  {
    var r :| |Heard(front, configurationId, r)| > n / 2;
    HeardNext(front, last, configurationId, r);
    SubsetSize(Heard(front, configurationId, r), Heard(front + [last], configurationId, r));
  }

  lemma FastFirstNext(front: seq<Input>, last: Input, configurationId: int, n: nat)
    ensures FastCameFirst(front + [last], configurationId, n)
            <==> FastCameFirst(front, configurationId, n) || QuorumAlone(front + [last], configurationId, n)
  {
    var inputs := front + [last];
    assert inputs[..|inputs|] == inputs;
    if k :| 0 <= k <= |front| && QuorumAlone(front[..k], configurationId, n) {
      assert inputs[..k] == front[..k];
    }
    if k :| 0 <= k <= |inputs| && QuorumAlone(inputs[..k], configurationId, n) {
      assert k <= |front| ==> inputs[..k] == front[..k];
    }
  }

  // ---------------------------------------------------------------- what the instance knows

  /** The inner Paxos has counted exactly the acceptors heard of, until a majority made it decide. */
  ghost predicate Learned(p: PaxosState, inputs: seq<Input>, configurationId: int, n: nat) {
    && p.configurationId == configurationId && p.n == n
    && (p.decided <==> HeardMajority(inputs, configurationId, n))
    && (!p.decided ==>
          forall r {:trigger Bucket(p, r)} :: Bucket(p, r).Keys == Heard(inputs, configurationId, r))
  }

  /** The fast round has counted exactly the first votes, until the instance decided. */
  ghost predicate Tallied(s: FastState, inputs: seq<Input>, configurationId: int, n: nat) {
    && s.configurationId == configurationId && s.membershipSize == n
    && (s.decided <==> HeardMajority(inputs, configurationId, n) || FastCameFirst(inputs, configurationId, n))
    && (!s.decided ==> TallyIs(s, FirstVotes(VotesIn(inputs), configurationId)))
  }

  function Count(b: bool): nat { if b then 1 else 0 }

  ghost predicate Counted(verdicts: seq<Input>, inputs: seq<Input>, configurationId: int, n: nat) {
    && |verdicts| == Count(HeardMajority(inputs, configurationId, n)) + Count(FastCameFirst(inputs, configurationId, n))
    && (forall v :: v in verdicts ==> v.HandleCall? && (v.request.FastVote? || v.request.Phase2b?))
    && (FastCameFirst(inputs, configurationId, n) ==> verdicts[0].request.FastVote?)
    && (HeardMajority(inputs, configurationId, n) ==> verdicts[|verdicts| - 1].request.Phase2b?)
  }

  predicate IsAcceptance(input: Input) { input.HandleCall? && input.request.Phase2b? }

  predicate IsVote(input: Input) { input.HandleCall? && input.request.FastVote? }

  // ---------------------------------------------------------------- one call

  /** Only acceptances and fast votes make an instance decide. */
  lemma DecidesOnly(s: FastState, input: Input)
    ensures |Call(s, input).1| <= 2 && (Decides(s, input) ==> IsAcceptance(input) || IsVote(input))
    ensures IsAcceptance(input) || IsVote(input) ==>
              |Call(s, input).1| <= 1 && (Decides(s, input) <==> Call(s, input).1 != [])
  {
    if IsAcceptance(input) || IsVote(input) {
      assert Call(s, input).1 != [] ==> Call(s, input).1[0].Decision?;
    }
  }

  /** A call that brings no acceptance leaves everything heard of acceptors. */
  lemma NothingHeard(front: seq<Input>, last: Input, configurationId: int, n: nat)
    requires forall r :: !Accepts(last, configurationId, r)
    ensures forall r :: Heard(front + [last], configurationId, r) == Heard(front, configurationId, r)
    ensures HeardMajority(front + [last], configurationId, n) <==> HeardMajority(front, configurationId, n)
  {
    forall r ensures Heard(front + [last], configurationId, r) == Heard(front, configurationId, r) {
      HeardNext(front, last, configurationId, r);
    }
    if HeardMajority(front, configurationId, n) {
      MajorityStays(front, last, configurationId, n);
    }
    if HeardMajority(front + [last], configurationId, n) {
      var r :| |Heard(front + [last], configurationId, r)| > n / 2;
      assert |Heard(front, configurationId, r)| > n / 2;
    }
  }

  /** An acceptance counts for its rank, and for no other. */
  lemma HeardOne(front: seq<Input>, last: Input, configurationId: int, n: nat, r: Rank)
    requires Accepts(last, configurationId, r) && !HeardMajority(front, configurationId, n)
    ensures HeardMajority(front + [last], configurationId, n)
            <==> |Heard(front, configurationId, r) + {last.request.accept.sender.value}| > n / 2
  {
    HeardNext(front, last, configurationId, r);
    if HeardMajority(front + [last], configurationId, n) {
      var r' :| |Heard(front + [last], configurationId, r')| > n / 2;
      HeardNext(front, last, configurationId, r');
      assert |Heard(front, configurationId, r')| <= n / 2;
    }
  }

  /** An acceptance that is counted goes to the bucket of its rank. */
  lemma AcceptanceCounts(s: FastState, last: Input, configurationId: int, r: Rank)
    requires s.paxos.configurationId == configurationId && !s.paxos.decided && Accepts(last, configurationId, r)
    ensures var m := last.request.accept;
            var bucket := Bucket(s.paxos, r)[m.sender.value := m];
            && Call(s, last).0.paxos == s.paxos.(acceptResponses := s.paxos.acceptResponses[r := bucket],
                                                 decided := |bucket| > s.paxos.n / 2)
            && (Decides(s, last) <==> |bucket| > s.paxos.n / 2)
  {
    DecidesOnly(s, last);
  }

  lemma BucketKeys(p: PaxosState, r: Rank, bucket: map<Endpoint, Phase2bMessage>, r': Rank, p': PaxosState)
    requires p'.acceptResponses == p.acceptResponses[r := bucket]
    ensures Bucket(p', r') == if r' == r then bucket else Bucket(p, r')
  {
  }

  /** It fills the bucket past a majority exactly when a majority was heard of. */
  lemma AcceptanceNext(s: FastState, front: seq<Input>, last: Input, configurationId: int, n: nat, r: Rank)
    requires Learned(s.paxos, front, configurationId, n) && !s.paxos.decided && Accepts(last, configurationId, r)
    ensures Learned(Call(s, last).0.paxos, front + [last], configurationId, n)
    ensures HeardMajority(front + [last], configurationId, n) <==> Decides(s, last)
  {
    var p, p', m := s.paxos, Call(s, last).0.paxos, last.request.accept;
    var bucket := Bucket(p, r)[m.sender.value := m];
    assert Bucket(p, r).Keys == Heard(front, configurationId, r);
    KeysGrow(Bucket(p, r), m.sender.value, m);
    HeardOne(front, last, configurationId, n, r);
    AcceptanceCounts(s, last, configurationId, r);
    forall r' ensures Bucket(p', r').Keys == Heard(front + [last], configurationId, r') {
      BucketKeys(p, r, bucket, r', p');
      HeardNext(front, last, configurationId, r');
      assert Bucket(p, r').Keys == Heard(front, configurationId, r');
    }
  }

  lemma KeysGrow(bucket: map<Endpoint, Phase2bMessage>, a: Endpoint, m: Phase2bMessage)
    ensures bucket[a := m].Keys == bucket.Keys + {a} && |bucket[a := m]| == |bucket.Keys + {a}|
  {
    assert bucket[a := m].Keys == bucket.Keys + {a};
  }

  /** Nor does it touch the buckets. */
  lemma NothingLearned(s: FastState, input: Input, configurationId: int)
    requires s.paxos.configurationId == configurationId && !s.paxos.decided
    requires forall r :: !Accepts(input, configurationId, r)
    ensures var p := Call(s, input).0.paxos;
            p.configurationId == configurationId && p.n == s.paxos.n && !p.decided
            && forall r {:trigger Bucket(p, r)} :: Bucket(p, r) == Bucket(s.paxos, r)
    ensures !(IsAcceptance(input) && Decides(s, input))
  {
    DecidesOnly(s, input);
    if IsAcceptance(input) {
      if input.request.accept.rnd.Some? {
        assert !Accepts(input, configurationId, input.request.accept.rnd.value);
      }
      assert Call(s, input).0.paxos == s.paxos;
    } else {
      SameBuckets(s, input);
    }
  }

  lemma SameBuckets(s: FastState, input: Input)
    requires !IsAcceptance(input)
    ensures var p := Call(s, input).0.paxos;
            && p.configurationId == s.paxos.configurationId && p.n == s.paxos.n && p.decided == s.paxos.decided
            && p.acceptResponses == s.paxos.acceptResponses
  {
  }

  lemma LearnedNext(s: FastState, front: seq<Input>, last: Input, configurationId: int, n: nat)
    requires Learned(s.paxos, front, configurationId, n)
    ensures Learned(Call(s, last).0.paxos, front + [last], configurationId, n)
    ensures HeardMajority(front + [last], configurationId, n)
            <==> HeardMajority(front, configurationId, n) || (IsAcceptance(last) && Decides(s, last))
    ensures IsAcceptance(last) && Decides(s, last) ==> !HeardMajority(front, configurationId, n)
  {
    DecidesOnly(s, last);
    if s.paxos.decided {
      MajorityStays(front, last, configurationId, n);
    } else if r :| Accepts(last, configurationId, r) {
      AcceptanceNext(s, front, last, configurationId, n, r);
    } else {
      NothingHeard(front, last, configurationId, n);
      NothingLearned(s, last, configurationId);
    }
  }

  // ---------------------------------------------------------------- one fast vote

  lemma VotesNext(front: seq<Input>, last: Input)
    ensures VotesIn(front + [last]) == VotesIn(front) + if IsVote(last) then [last.request.vote] else []
  {
    assert (front + [last])[..|front|] == front;
  }

  /** A vote that is not counted leaves the first votes. */
  predicate NotCounted(front: seq<Input>, last: Input, configurationId: int) {
    IsVote(last) ==>
      var m := last.request.vote;
      m.configurationId != configurationId || m.sender.None?
      || m.sender.value in FirstVotes(VotesIn(front), configurationId)
  }

  lemma FirstVotesNext(front: seq<Input>, last: Input, configurationId: int)
    ensures FirstVotes(VotesIn(front + [last]), configurationId)
            == if NotCounted(front, last, configurationId) then FirstVotes(VotesIn(front), configurationId)
               else FirstVotes(VotesIn(front), configurationId)[
                      last.request.vote.sender.value := last.request.vote.endpoints]
  {
    VotesNext(front, last);
    var votes := VotesIn(front);
    if !IsVote(last) {
      assert votes + [] == votes;
    } else {
      var m := last.request.vote;
      assert (votes + [m])[..|votes|] == votes && (votes + [m])[|votes|] == m;
    }
  }

  /** While undecided, no quorum was heard of. */
  lemma UndecidedHeard(s: FastState, front: seq<Input>, configurationId: int, n: nat)
    requires Tallied(s, front, configurationId, n) && !s.decided
    ensures !HeardQuorum(front, configurationId, n) && !HeardMajority(front, configurationId, n)
  {
    assert front[..|front|] == front;
  }

  /** A counted vote decides exactly when it completes a quorum. */
  lemma VoteCounts(s: FastState, first: map<Endpoint, Proposal>, last: Input, n: nat)
    requires TallyIs(s, first) && !s.decided && !Reached(first, n) && s.membershipSize == n
    requires IsVote(last) && last.request.vote.configurationId == s.configurationId
    requires last.request.vote.sender.Some? && last.request.vote.sender.value !in first
    ensures var first' := first[last.request.vote.sender.value := last.request.vote.endpoints];
            TallyIs(Call(s, last).0, first') && (Reached(first', n) <==> Decides(s, last))
  {
    OneVoteReaches(s, first, last.request.vote, n);
    TallyCounts(s, first, last.request.vote);
    DecidesOnly(s, last);
  }

  lemma VoteNext(s: FastState, front: seq<Input>, last: Input, configurationId: int, n: nat)
    requires Tallied(s, front, configurationId, n) && !s.decided
    requires IsVote(last) && !NotCounted(front, last, configurationId)
    ensures HeardQuorum(front + [last], configurationId, n) <==> Decides(s, last)
    ensures TallyIs(Call(s, last).0, FirstVotes(VotesIn(front + [last]), configurationId))
  {
    UndecidedHeard(s, front, configurationId, n);
    FirstVotesNext(front, last, configurationId);
    VoteCounts(s, FirstVotes(VotesIn(front), configurationId), last, n);
  }

  /** Any other call leaves the tally. */
  lemma NothingTallied(s: FastState, input: Input)
    requires IsVote(input) ==>
               var m := input.request.vote;
               m.configurationId != s.configurationId || m.sender.None? || m.sender.value in s.votesReceived
    ensures Call(s, input).0.votesReceived == s.votesReceived
    ensures Call(s, input).0.votesPerProposal == s.votesPerProposal
    ensures !(IsVote(input) && Decides(s, input))
  {
    DecidesOnly(s, input);
    match input
    case HandleCall(r) => match r { case FastVote(_) => case _ => }
    case _ =>
  }

  lemma SameTally(s: FastState, s': FastState, first: map<Endpoint, Proposal>)
    requires TallyIs(s, first) && s'.votesReceived == s.votesReceived && s'.votesPerProposal == s.votesPerProposal
    ensures TallyIs(s', first)
  {
    forall v ensures Votes(s', v) == |Supporters(first, v)| {
      assert Votes(s', v) == Votes(s, v);
    }
  }

  /** What a call does to an undecided instance. */
  lemma UndecidedNext(s: FastState, front: seq<Input>, last: Input, configurationId: int, n: nat)
    requires Tallied(s, front, configurationId, n) && !s.decided
    ensures TallyIs(Call(s, last).0, FirstVotes(VotesIn(front + [last]), configurationId))
            || (IsVote(last) && Decides(s, last))
    ensures HeardQuorum(front + [last], configurationId, n) <==> IsVote(last) && Decides(s, last)
  {
    FirstVotesNext(front, last, configurationId);
    if NotCounted(front, last, configurationId) {
      UndecidedHeard(s, front, configurationId, n);
      NothingTallied(s, last);
      SameTally(s, Call(s, last).0, FirstVotes(VotesIn(front), configurationId));
    } else {
      VoteNext(s, front, last, configurationId, n);
    }
  }

  /** The outer flag after a call. */
  lemma FlagNext(s: FastState, last: Input)
    requires s.paxos.decided ==> s.decided
    ensures var s' := Call(s, last).0;
            && s'.configurationId == s.configurationId && s'.membershipSize == s.membershipSize
            && (s'.decided <==> s.decided || Decides(s, last))
    ensures IsVote(last) && Decides(s, last) ==> !s.decided
  {
    DecidesOnly(s, last);
  }

  lemma TalliedNext(s: FastState, front: seq<Input>, last: Input, configurationId: int, n: nat)
    requires Learned(s.paxos, front, configurationId, n) && Tallied(s, front, configurationId, n)
    ensures Tallied(Call(s, last).0, front + [last], configurationId, n)
    ensures FastCameFirst(front + [last], configurationId, n)
            <==> FastCameFirst(front, configurationId, n) || (IsVote(last) && Decides(s, last))
    ensures IsVote(last) && Decides(s, last) ==>
              !FastCameFirst(front, configurationId, n) && !HeardMajority(front, configurationId, n)
  {
    LearnedNext(s, front, last, configurationId, n);
    FastFirstNext(front, last, configurationId, n);
    FlagNext(s, last);
    DecidesOnly(s, last);
    if !s.decided {
      UndecidedHeard(s, front, configurationId, n);
      UndecidedNext(s, front, last, configurationId, n);
    } else if HeardMajority(front, configurationId, n) {
      MajorityStays(front, last, configurationId, n);
    }
  }

  // ---------------------------------------------------------------- any number of calls

  /** The state and the decisions after `inputs` are those that what was heard accounts for. */
  ghost predicate Accounted(me: Endpoint, configurationId: int, n: nat, inputs: seq<Input>) {
    var (s, verdicts) := Fed(InitFast(me, configurationId, n), inputs);
    && Learned(s.paxos, inputs, configurationId, n) && Tallied(s, inputs, configurationId, n)
    && Counted(verdicts, inputs, configurationId, n)
  }

  lemma CountedNext(s: FastState, verdicts: seq<Input>, front: seq<Input>, last: Input, configurationId: int, n: nat)
    requires Learned(s.paxos, front, configurationId, n) && Tallied(s, front, configurationId, n)
    requires Counted(verdicts, front, configurationId, n)
    ensures Counted(verdicts + if Decides(s, last) then [last] else [], front + [last], configurationId, n)
  {
    LearnedNext(s, front, last, configurationId, n);
    TalliedNext(s, front, last, configurationId, n);
    DecidesOnly(s, last);
  }

  lemma InitAccounted(me: Endpoint, configurationId: int, n: nat)
    ensures Accounted(me, configurationId, n, [])
  {
    forall r ensures Heard([], configurationId, r) == {} {}
    forall v ensures Supporters(map[], v) == {} {}
  }

  lemma {:induction false} AllAccounted(me: Endpoint, configurationId: int, n: nat, inputs: seq<Input>)
    ensures Accounted(me, configurationId, n, inputs)
  {
    if inputs == [] {
      InitAccounted(me, configurationId, n);
    } else {
      var front, last := inputs[..|inputs| - 1], inputs[|inputs| - 1];
      assert inputs == front + [last];
      AllAccounted(me, configurationId, n, front);
      var (s, verdicts) := Fed(InitFast(me, configurationId, n), front);
      LearnedNext(s, front, last, configurationId, n);
      TalliedNext(s, front, last, configurationId, n);
      CountedNext(s, verdicts, front, last, configurationId, n);
    }
  }

  lemma {:induction false} QuorumStays(inputs: seq<Input>, k: nat, configurationId: int, n: nat)
    requires k <= |inputs| && HeardQuorum(inputs[..k], configurationId, n)
    ensures HeardQuorum(inputs, configurationId, n)
    decreases |inputs| - k
  {
    if k == |inputs| {
      assert inputs[..k] == inputs;
    } else {
      assert inputs[..k + 1] == inputs[..k] + [inputs[k]];
      FirstVotesNext(inputs[..k], inputs[k], configurationId);
      StaysReached(FirstVotes(VotesIn(inputs[..k]), configurationId),
                   FirstVotes(VotesIn(inputs[..k + 1]), configurationId), n);
      QuorumStays(inputs, k + 1, configurationId, n);
    }
  }

  /** An instance decides when it has heard of a fast quorum or of a majority of acceptors at one
      rank, and decides again only in one case: the quorum came first, and the majority later. */
  lemma DecisionsCounted(me: Endpoint, configurationId: int, n: nat, inputs: seq<Input>)
    ensures var (s, verdicts) := Fed(InitFast(me, configurationId, n), inputs);
            && |verdicts| <= 2
            && (s.decided <==> verdicts != [])
            && (verdicts != [] <==>
                  HeardQuorum(inputs, configurationId, n) || HeardMajority(inputs, configurationId, n))
            && (|verdicts| == 2 <==>
                  FastCameFirst(inputs, configurationId, n) && HeardMajority(inputs, configurationId, n))
            && (|verdicts| == 2 ==> IsVote(verdicts[0]) && IsAcceptance(verdicts[1]))
  {
    AllAccounted(me, configurationId, n, inputs);
    if HeardQuorum(inputs, configurationId, n) && !HeardMajority(inputs, configurationId, n) {
      assert inputs[..|inputs|] == inputs;
      assert FastCameFirst(inputs, configurationId, n);
    }
    if FastCameFirst(inputs, configurationId, n) {
      var k :| 0 <= k <= |inputs| && QuorumAlone(inputs[..k], configurationId, n);
      QuorumStays(inputs, k, configurationId, n);
    }
  }

  /** A caller that lets go of an instance once it has decided sees exactly one decision. */
  lemma OneUntilDecided(me: Endpoint, configurationId: int, n: nat, front: seq<Input>, last: Input)
    requires !Fed(InitFast(me, configurationId, n), front).0.decided
    ensures var (s, verdicts) := Fed(InitFast(me, configurationId, n), front + [last]);
            verdicts == if s.decided then [last] else []
  {
    DecisionsCounted(me, configurationId, n, front);
    DecisionsCounted(me, configurationId, n, front + [last]);
    assert (front + [last])[..|front|] == front;
  }

  // ---------------------------------------------------------------- an instance that decides twice

  function Prepare(me: Endpoint, configurationId: int, index: int): Request {
    Phase1a(Phase1aMessage(configurationId, Some(me), Some(Rank(2, index))))
  }

  function FastVoteOf(me: Endpoint, configurationId: int, v: Proposal): Request {
    FastVote(FastRoundPhase2bMessage(configurationId, v, Some(me)))
  }

  function Promise(me: Endpoint, configurationId: int, index: int, v: Proposal): Phase1bMessage {
    Phase1bMessage(configurationId, Some(Rank(2, index)), Some(me), Some(FAST_RANK), v)
  }

  function Order(me: Endpoint, configurationId: int, index: int, v: Proposal): Request {
    Phase2a(Phase2aMessage(configurationId, Some(me), Some(Rank(2, index)), v))
  }

  function Accept(me: Endpoint, configurationId: int, index: int, v: Proposal): Request {
    Phase2b(Phase2bMessage(configurationId, Some(Rank(2, index)), Some(me), v))
  }

  /** A lone member proposes, its fallback timer fires before its own vote arrives, and then
      everything it sent arrives in the order in which it was sent. */
  function LoneRun(me: Endpoint, configurationId: int, index: int, v: Proposal): seq<Input> {
    [ProposeCall(v), StartCall(index),
     HandleCall(FastVoteOf(me, configurationId, v)), HandleCall(Prepare(me, configurationId, index)),
     HandleCall(Phase1b(Promise(me, configurationId, index, v))), HandleCall(Order(me, configurationId, index, v)),
     HandleCall(Accept(me, configurationId, index, v))]
  }

  /** What is handled was sent by the instance itself in an earlier call. */
  ghost predicate Closed(s: FastState, inputs: seq<Input>) {
    forall k {:trigger inputs[k]} :: 0 <= k < |inputs| && inputs[k].HandleCall? ==> SentBefore(s, inputs, k)
  }

  ghost predicate SentBefore(s: FastState, inputs: seq<Input>, k: nat)
    requires k < |inputs| && inputs[k].HandleCall?
  {
    exists j {:trigger Sends(Fed(s, inputs[..j]).0, inputs[j], inputs[k].request)} ::
      0 <= j < k && Sends(Fed(s, inputs[..j]).0, inputs[j], inputs[k].request)
  }

  predicate Sends(s: FastState, input: Input, request: Request) {
    Broadcast(request) in Call(s, input).1 || Unicast(s.myAddr, request) in Call(s, input).1
  }

  lemma FedNext(s: FastState, inputs: seq<Input>, k: nat)
    requires k < |inputs|
    ensures Fed(s, inputs[..k + 1]).0 == Call(Fed(s, inputs[..k]).0, inputs[k]).0
    ensures |Fed(s, inputs[..k + 1]).1| == |Fed(s, inputs[..k]).1| + Count(Decides(Fed(s, inputs[..k]).0, inputs[k]))
  {
    assert inputs[..k + 1][..k] == inputs[..k];
  }

  /** The lone member after its first `k` calls. */
  function LoneState(me: Endpoint, configurationId: int, index: int, v: Proposal, k: nat): FastState {
    var r, m := Rank(2, index), Promise(me, configurationId, index, v);
    var s := InitFast(me, configurationId, 1);
    var p := s.paxos;
    var p1 := if k < 1 then p else p.(rnd := FAST_RANK, vrnd := FAST_RANK, vval := v);
    var p2 := if k < 2 then p1 else p1.(crnd := r);
    var p4 := if k < 4 then p2 else p2.(rnd := r);
    var p5 := if k < 5 then p4 else p4.(promises := [m], cval := v);
    var p6 := if k < 6 then p5 else p5.(vrnd := r);
    s.(paxos := p6, classicStarted := k >= 2, decided := k >= 3,
       votesReceived := if k < 3 then {} else {me}, votesPerProposal := if k < 3 then map[] else map[v := 1])
  }

  lemma LonePromiseSelects(me: Endpoint, configurationId: int, index: int, v: Proposal)
    requires v != []
    ensures Select([Promise(me, configurationId, index, v)], 1) == v
  {
    var q := [Promise(me, configurationId, index, v)];
    MaxVrndIsMax(q);
    SelectsUnanimousVote(q, 1, FAST_RANK, v);
  }

  /** One call of the run, and what comes of it. */
  lemma LoneCall(me: Endpoint, configurationId: int, index: int, v: Proposal, k: nat)
    requires v != [] && k < 7
    ensures var s, run := LoneState(me, configurationId, index, v, k), LoneRun(me, configurationId, index, v);
            && (k < 6 ==> Call(s, run[k]).0 == LoneState(me, configurationId, index, v, k + 1))
            && (k == 0 ==> Sends(s, run[k], run[2].request))
            && (k == 1 ==> Sends(s, run[k], run[3].request))
            && (3 <= k < 6 ==> Sends(s, run[k], run[k + 1].request))
            && (k in {2, 6} ==> Decides(s, run[k]))
  {
    if k < 3 {
      EarlyCall(me, configurationId, index, v, k);
    } else {
      LateCall(me, configurationId, index, v, k);
    }
  }

  lemma EarlyCall(me: Endpoint, configurationId: int, index: int, v: Proposal, k: nat)
    requires k < 3
    ensures var s, run := LoneState(me, configurationId, index, v, k), LoneRun(me, configurationId, index, v);
            && Call(s, run[k]).0 == LoneState(me, configurationId, index, v, k + 1)
            && (k < 2 ==> Sends(s, run[k], run[k + 2].request))
            && (k == 2 ==> Decides(s, run[k]))
  {
    DecidesOnly(LoneState(me, configurationId, index, v, k), LoneRun(me, configurationId, index, v)[k]);
  }

  lemma LateCall(me: Endpoint, configurationId: int, index: int, v: Proposal, k: nat)
    requires v != [] && 3 <= k < 7
    ensures var s, run := LoneState(me, configurationId, index, v, k), LoneRun(me, configurationId, index, v);
            && (k < 6 ==> Call(s, run[k]).0 == LoneState(me, configurationId, index, v, k + 1))
            && (k < 6 ==> Sends(s, run[k], run[k + 1].request))
            && (k == 6 ==> Decides(s, run[k]))
  {
    DecidesOnly(LoneState(me, configurationId, index, v, k), LoneRun(me, configurationId, index, v)[k]);
    LonePromiseSelects(me, configurationId, index, v);
  }

  /** After `k` calls the lone member is in that state, and from the third on it has decided. */
  ghost predicate LoneAt(me: Endpoint, configurationId: int, index: int, v: Proposal, k: nat)
    requires k <= 6
  {
    var fed := Fed(InitFast(me, configurationId, 1), LoneRun(me, configurationId, index, v)[..k]);
    fed.0 == LoneState(me, configurationId, index, v, k) && (k >= 3 ==> |fed.1| >= 1)
  }

  lemma LoneStep(me: Endpoint, configurationId: int, index: int, v: Proposal, k: nat)
    requires v != [] && k < 6 && LoneAt(me, configurationId, index, v, k)
    ensures LoneAt(me, configurationId, index, v, k + 1)
  {
    LoneCall(me, configurationId, index, v, k);
    FedNext(InitFast(me, configurationId, 1), LoneRun(me, configurationId, index, v), k);
  }

  lemma {:induction false} LoneStates(me: Endpoint, configurationId: int, index: int, v: Proposal, k: nat)
    requires v != [] && k <= 6
    ensures LoneAt(me, configurationId, index, v, k)
  {
    if k > 0 {
      LoneStates(me, configurationId, index, v, k - 1);
      LoneStep(me, configurationId, index, v, k - 1);
    }
  }

  /** A lone member whose timer fires early decides twice. */
  lemma LoneMemberDecidesTwice(me: Endpoint, configurationId: int, index: int, v: Proposal)
    requires v != []
    ensures var s, run := InitFast(me, configurationId, 1), LoneRun(me, configurationId, index, v);
            Closed(s, run) && |Fed(s, run).1| == 2
  {
    LoneRunClosed(me, configurationId, index, v);
    LoneRunDecides(me, configurationId, index, v);
  }

  lemma LoneSends(me: Endpoint, configurationId: int, index: int, v: Proposal, k: nat)
    requires v != [] && 2 <= k < 7
    ensures SentBefore(InitFast(me, configurationId, 1), LoneRun(me, configurationId, index, v), k)
  {
    var s, run := InitFast(me, configurationId, 1), LoneRun(me, configurationId, index, v);
    var j := if k <= 3 then k - 2 else k - 1;
    LoneStates(me, configurationId, index, v, j);
    LoneCall(me, configurationId, index, v, j);
    assert Sends(Fed(s, run[..j]).0, run[j], run[k].request);
  }

  lemma LoneRunClosed(me: Endpoint, configurationId: int, index: int, v: Proposal)
    requires v != []
    ensures Closed(InitFast(me, configurationId, 1), LoneRun(me, configurationId, index, v))
  {
    var s, run := InitFast(me, configurationId, 1), LoneRun(me, configurationId, index, v);
    forall k | 0 <= k < |run| && run[k].HandleCall? ensures SentBefore(s, run, k) {
      LoneSends(me, configurationId, index, v, k);
    }
  }

  lemma LoneRunDecides(me: Endpoint, configurationId: int, index: int, v: Proposal)
    requires v != []
    ensures |Fed(InitFast(me, configurationId, 1), LoneRun(me, configurationId, index, v)).1| == 2
  {
    var s, run := InitFast(me, configurationId, 1), LoneRun(me, configurationId, index, v);
    assert run[..7] == run;
    LoneStates(me, configurationId, index, v, 6);
    LoneCall(me, configurationId, index, v, 6);
    FedNext(s, run, 6);
    DecisionsCounted(me, configurationId, 1, run);
  }
}
