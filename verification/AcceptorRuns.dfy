/** An acceptor keeps its word: what one consensus instance promises and accepts, in order, whatever
    it is asked, by whom, and from any state. */
module AcceptorRuns {
  import opened Types
  import opened CoordinatorRule
  import opened Messages
  import opened ClassicPaxos
  import opened FastConsensus
  import opened InstanceRuns

  /** What an acceptor says: a promise with the vote it reports, or an acceptance. */
  datatype Word =
    | Promised(rank: Rank, vrnd: Rank, vval: Proposal)
    | Accepted(rank: Rank, value: Proposal)

  /** The word in an effect, if it is one. */
  function WordIn(o: Outgoing): seq<Word> {
    match o
    case Unicast(_, Phase1b(m)) =>
      if m.rnd.Some? && m.vrnd.Some? then [Promised(m.rnd.value, m.vrnd.value, m.vval)] else []
    case Broadcast(Phase2b(m)) => if m.rnd.Some? then [Accepted(m.rnd.value, m.endpoints)] else []
    case _ => []
  }

  function WordsIn(outs: seq<Outgoing>): seq<Word> {
    if outs == [] then [] else WordIn(outs[0]) + WordsIn(outs[1..])
  }

  /** The instance after the calls, and all it said. */
  function Said(s: FastState, inputs: seq<Input>): (FastState, seq<Word>) {
    if inputs == [] then (s, [])
    else
      var (before, words) := Said(s, inputs[..|inputs| - 1]);
      var (after, outs) := Call(before, inputs[|inputs| - 1]);
      (after, words + WordsIn(outs))
  }

  /** After `a`, said in a classic round, `b` is of a higher rank, or accepts what `a` promised to. */
  predicate MayFollow(a: Word, b: Word) {
    a.rank.round > 1 ==> RankLess(a.rank, b.rank) || (a.rank == b.rank && a.Promised? && b.Accepted?)
  }

  /** Word `i` is an acceptance in a classic round, the last before word `j`. */
  predicate LastAccepted(words: seq<Word>, i: int, j: int) {
    && 0 <= i < j <= |words| && words[i].Accepted? && words[i].rank.round > 1
    && forall k :: i < k < j ==> !words[k].Accepted?
  }

  /** No word goes back on an earlier one: an acceptor promises a rank once and accepts at a rank once, in
      ascending order, nothing below what it promised, and a promise reports the last acceptance. */
  ghost predicate KeepsWord(words: seq<Word>) {
    && (forall i, j :: 0 <= i < j < |words| ==> MayFollow(words[i], words[j]))
    && (forall i, j {:trigger LastAccepted(words, i, j)} ::
          LastAccepted(words, i, j) && j < |words| && words[j].Promised? ==>
            words[j].vrnd == words[i].rank && words[j].vval == words[i].value)
  }

  /** The acceptor remembers what it said. */
  ghost predicate Remembers(p: PaxosState, words: seq<Word>) {
    && (forall i :: 0 <= i < |words| && words[i].rank.round > 1 ==> RankAtMost(words[i].rank, p.rnd))
    && (forall i {:trigger LastAccepted(words, i, |words|)} ::
          LastAccepted(words, i, |words|) ==> p.vrnd == words[i].rank && p.vval == words[i].value)
  }

  /** A call that says nothing moves the acceptor, if at all, upwards, once it is past the fast round. */
  ghost predicate MovesUp(p: PaxosState, p': PaxosState) {
    p.rnd.round > 1 ==> RankAtMost(p.rnd, p'.rnd) && p'.vrnd == p.vrnd && p'.vval == p.vval
  }

  /** From `p` to `p'` at most one word was said, and it fits. */
  ghost predicate SaidOne(p: PaxosState, p': PaxosState, words: seq<Word>) {
    if words == [] then MovesUp(p, p')
    else
      && words == [words[0]] && words[0].rank == p'.rnd
      && (words[0].Promised? ==>
            && RankLess(p.rnd, p'.rnd) && p'.vrnd == p.vrnd && p'.vval == p.vval
            && words[0].vrnd == p.vrnd && words[0].vval == p.vval)
      && (words[0].Accepted? ==>
            && RankAtMost(p.rnd, p'.rnd) && p.vrnd != p'.rnd && p'.vrnd == p'.rnd && words[0].value == p'.vval)
  }

  lemma OneEffect(o: Outgoing)
    ensures WordsIn([o]) == WordIn(o) && WordsIn([]) == []
  {
    assert [o][1..] == [];
  }

  lemma AcceptorSays(p: PaxosState, prepare: Phase1aMessage, order: Phase2aMessage)
    ensures SaidOne(p, OnPhase1a(p, prepare).0, WordsIn(OnPhase1a(p, prepare).1))
    ensures SaidOne(p, OnPhase2a(p, order).0, WordsIn(OnPhase2a(p, order).1))
  {
    if OnPhase1a(p, prepare).1 != [] { OneEffect(OnPhase1a(p, prepare).1[0]); }
    if OnPhase2a(p, order).1 != [] { OneEffect(OnPhase2a(p, order).1[0]); }
  }

  lemma OthersSayNothing(p: PaxosState, promise: Phase1bMessage, accept: Phase2bMessage)
    ensures SaidOne(p, OnPhase1b(p, promise).0, WordsIn(OnPhase1b(p, promise).1))
    ensures SaidOne(p, OnPhase2b(p, accept).0, WordsIn(OnPhase2b(p, accept).1))
  {
    if OnPhase1b(p, promise).1 != [] { OneEffect(OnPhase1b(p, promise).1[0]); }
    if OnPhase2b(p, accept).1 != [] { OneEffect(OnPhase2b(p, accept).1[0]); }
  }

  lemma FastRoundSaysNothing(s: FastState, vote: FastRoundPhase2bMessage, v: Proposal, index: int)
    ensures SaidOne(s.paxos, OnFastVote(s, vote).0.paxos, WordsIn(OnFastVote(s, vote).1))
    ensures SaidOne(s.paxos, Propose(s, v).0.paxos, WordsIn(Propose(s, v).1))
    ensures SaidOne(s.paxos, StartClassicRound(s, index).0.paxos, WordsIn(StartClassicRound(s, index).1))
  {
    if OnFastVote(s, vote).1 != [] { OneEffect(OnFastVote(s, vote).1[0]); }
    if StartClassicRound(s, index).1 != [] { OneEffect(StartClassicRound(s, index).1[0]); }
    OneEffect(ScheduleClassicFallback);
    assert Propose(s, v).1[1..] == [ScheduleClassicFallback];
  }

  /** What one call does to the acceptor, and what it says. */
  lemma OneCall(s: FastState, input: Input)
    ensures SaidOne(s.paxos, Call(s, input).0.paxos, WordsIn(Call(s, input).1))
  {
    match input
    case ProposeCall(v) => FastRoundSaysNothing(s, FastRoundPhase2bMessage(0, [], None), v, 0);
    case StartCall(index) => FastRoundSaysNothing(s, FastRoundPhase2bMessage(0, [], None), [], index);
    case HandleCall(r) => OneRequest(s, r);
  }

  lemma OneRequest(s: FastState, r: Request)
    ensures SaidOne(s.paxos, HandleRequest(s, r).0.paxos, WordsIn(HandleRequest(s, r).1))
  {
    match r
    case Phase1a(m) => AcceptorSays(s.paxos, m, Phase2aMessage(0, None, None, []));
    case Phase1b(m) => OthersSayNothing(s.paxos, m, Phase2bMessage(0, None, None, []));
    case Phase2a(m) => AcceptorSays(s.paxos, Phase1aMessage(0, None, None), m);
    case Phase2b(m) => OthersSayNothing(s.paxos, Phase1bMessage(0, None, None, None, []), m);
    case FastVote(m) => FastRoundSaysNothing(s, m, [], 0);
    case Other =>
  }

  /** Whatever it is asked, and from any state, the acceptor keeps its word. */
  lemma {:induction false} AcceptorKeepsWord(s: FastState, inputs: seq<Input>)
    ensures KeepsWord(Said(s, inputs).1) && Remembers(Said(s, inputs).0.paxos, Said(s, inputs).1)
    decreases |inputs|
  {
    if inputs != [] {
      var front, last := inputs[..|inputs| - 1], inputs[|inputs| - 1];
      AcceptorKeepsWord(s, front);
      var (before, words) := Said(s, front);
      OneCall(before, last);
      var said := WordsIn(Call(before, last).1);
      if said == [] {
        assert words + [] == words;
        StillRemembers(before.paxos, Call(before, last).0.paxos, words);
      } else {
        SaysMore(before.paxos, Call(before, last).0.paxos, words, said[0]);
      }
    }
  }

  lemma StillRemembers(p: PaxosState, p': PaxosState, words: seq<Word>)
    requires Remembers(p, words) && MovesUp(p, p')
    ensures Remembers(p', words)
  {
    forall i | 0 <= i < |words| && words[i].rank.round > 1 ensures RankAtMost(words[i].rank, p'.rnd) {
      assert RankAtMost(words[i].rank, p.rnd);
    }
    forall i | LastAccepted(words, i, |words|) ensures p'.vrnd == words[i].rank && p'.vval == words[i].value {
      assert RankAtMost(words[i].rank, p.rnd);
    }
  }

  lemma SaysMore(p: PaxosState, p': PaxosState, words: seq<Word>, word: Word)
    requires KeepsWord(words) && Remembers(p, words) && word.rank == p'.rnd
    requires word.Promised? ==>
               && RankLess(p.rnd, p'.rnd) && p'.vrnd == p.vrnd && p'.vval == p.vval
               && word.vrnd == p.vrnd && word.vval == p.vval
    requires word.Accepted? ==>
               RankAtMost(p.rnd, p'.rnd) && p.vrnd != p'.rnd && p'.vrnd == p'.rnd && word.value == p'.vval
    ensures KeepsWord(words + [word]) && Remembers(p', words + [word])
  {
    var all, n := words + [word], |words|;
    forall i | 0 <= i < n ensures MayFollow(words[i], word) {
      FollowsEarlier(p, words, word, i);
    }
    forall i, j | 0 <= i < j < |all| ensures MayFollow(all[i], all[j]) {
      if j < n {
        assert MayFollow(words[i], words[j]);
      }
    }
    forall i, j | LastAccepted(all, i, j) && j < |all| && all[j].Promised?
      ensures all[j].vrnd == all[i].rank && all[j].vval == all[i].value
    {
      LastAcceptedThere(words, word, i, j);
    }
    forall i | 0 <= i < |all| && all[i].rank.round > 1 ensures RankAtMost(all[i].rank, p'.rnd) {
      if i < n {
        assert RankAtMost(words[i].rank, p.rnd);
      }
    }
    forall i | LastAccepted(all, i, |all|) ensures p'.vrnd == all[i].rank && p'.vval == all[i].value {
      if i < n {
        assert !all[n].Accepted? && all[n] == word;
        LastAcceptedThere(words, word, i, n);
      }
    }
  }

  lemma LastAcceptedThere(words: seq<Word>, word: Word, i: int, j: int)
    requires j <= |words|
    ensures LastAccepted(words + [word], i, j) <==> LastAccepted(words, i, j)
  {
    assert forall k :: 0 <= k < |words| ==> (words + [word])[k] == words[k];
  }

  /** The new word may follow each earlier one. */
  lemma FollowsEarlier(p: PaxosState, words: seq<Word>, word: Word, i: nat)
    requires KeepsWord(words) && Remembers(p, words) && i < |words|
    requires if word.Promised? then RankLess(p.rnd, word.rank)
             else RankAtMost(p.rnd, word.rank) && p.vrnd != word.rank
    ensures MayFollow(words[i], word)
  {
    if words[i].rank.round > 1 && words[i].rank == word.rank && words[i].Accepted? {
      var l := LatestAcceptance(words, i);
      assert LastAccepted(words, l, |words|);
      assert l > i ==> MayFollow(words[i], words[l]);
      assert RankAtMost(words[l].rank, p.rnd);
    }
  }

  /** From an acceptance on there is a last one. */
  lemma {:induction false} LatestAcceptance(words: seq<Word>, i: nat) returns (l: nat)
    requires i < |words| && words[i].Accepted? && words[i].rank.round > 1 && KeepsWord(words)
    ensures i <= l && LastAccepted(words, l, |words|)
    decreases |words| - i
  {
    if k :| i < k < |words| && words[k].Accepted? {
      assert MayFollow(words[i], words[k]);
      l := LatestAcceptance(words, k);
    } else {
      l := i;
    }
  }

  // ---------------------------------------------------------------- a prepare binds

  /** The acceptor is bound to `r`, and so is all it said. */
  ghost predicate Bound(p: PaxosState, words: seq<Word>, r: Rank) {
    && RankAtMost(r, p.rnd)
    && forall i :: 0 <= i < |words| ==>
         RankAtMost(r, words[i].rank) && (words[i].Promised? ==> RankLess(r, words[i].rank))
  }

  lemma {:induction false} StaysBound(s: FastState, r: Rank, inputs: seq<Input>)
    requires r.round > 1 && RankAtMost(r, s.paxos.rnd)
    ensures Bound(Said(s, inputs).0.paxos, Said(s, inputs).1, r)
    decreases |inputs|
  {
    if inputs != [] {
      var front, last := inputs[..|inputs| - 1], inputs[|inputs| - 1];
      StaysBound(s, r, front);
      var (before, words) := Said(s, front);
      OneCall(before, last);
      OneMoreBound(before.paxos, Call(before, last).0.paxos, words, WordsIn(Call(before, last).1), r);
    }
  }

  lemma OneMoreBound(p: PaxosState, p': PaxosState, words: seq<Word>, said: seq<Word>, r: Rank)
    requires r.round > 1 && Bound(p, words, r) && SaidOne(p, p', said)
    ensures Bound(p', words + said, r)
  {
  }

  /** Once it was handed a prepare of its configuration, whoever sent it or nobody, an acceptor promises
      nothing at that rank or below and accepts nothing below, whatever else it is asked. */
  lemma PrepareBinds(s: FastState, m: Phase1aMessage, r: Rank, inputs: seq<Input>)
    requires m.configurationId == s.paxos.configurationId && m.rank == Some(r) && r.round > 1
    ensures var s' := Call(s, HandleCall(Phase1a(m))).0;
            Bound(Said(s', inputs).0.paxos, Said(s', inputs).1, r)
  {
    StaysBound(Call(s, HandleCall(Phase1a(m))).0, r, inputs);
  }
}
