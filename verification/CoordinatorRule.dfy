/** The Fast-Paxos coordinator rule: which value a coordinator may order after a majority
    of promises. */
module CoordinatorRule {
  import opened Types
  import opened SetFacts

  /** `pb::Phase1bMessage`: an acceptor's promise, reporting its last vote. */
  datatype Phase1bMessage = Phase1bMessage(
    configurationId: int, rnd: Option<Rank>, sender: Option<Endpoint>,
    vrnd: Option<Rank>, vval: Proposal)

  /** The highest vote rank reported, ignoring messages without one. */
  function MaxVrnd(messages: seq<Phase1bMessage>): (k: Option<Rank>) {
    if messages == [] then None
    else
      var last := messages[|messages| - 1];
      var k := MaxVrnd(messages[..|messages| - 1]);
      if last.vrnd.Some? && (k.None? || RankAtMost(k.value, last.vrnd.value)) then last.vrnd else k
  }

  /** The non-empty votes cast at rank `k`, in arrival order. */
  function VotesAt(messages: seq<Phase1bMessage>, k: Rank): (votes: seq<Proposal>) {
    if messages == [] then []
    else
      var last := messages[|messages| - 1];
      var votes := VotesAt(messages[..|messages| - 1], k);
      if last.vrnd == Some(k) && last.vval != [] then votes + [last.vval] else votes
  }

  /** The first vote whose multiplicity so far, itself included, exceeds `quarter`. */
  function FirstAbove(votes: seq<Proposal>, i: nat, quarter: nat): (v: Option<Proposal>)
    requires i <= |votes|
    decreases |votes| - i
  {
    if i == |votes| then None
    else if multiset(votes[..i])[votes[i]] + 1 > quarter then Some(votes[i])
    else FirstAbove(votes, i + 1, quarter)
  }

  /** The first non-empty vote of any rank, or the empty proposal. */
  function FirstNonEmpty(messages: seq<Phase1bMessage>): (v: Proposal) {
    if messages == [] then []
    else if messages[0].vval != [] then messages[0].vval
    else FirstNonEmpty(messages[1..])
  }

  function Unique(votes: seq<Proposal>): (values: set<Proposal>) {
    set v | v in votes
  }

  /** What `select_proposal_from_messages` returns, as a function. */
  function Select(messages: seq<Phase1bMessage>, n: nat): (v: Proposal) {
    var k := MaxVrnd(messages);
    if k.None? then []
    else
      var votes := VotesAt(messages, k.value);
      if |Unique(votes)| == 1 then votes[0]
      else
        var above := FirstAbove(votes, 0, n / 4);
        if above.Some? then above.value else FirstNonEmpty(messages)
  }

  /** The source's selection: three passes over the messages and a scan with a counter map. */
  method SelectProposalFromMessages(messages: seq<Phase1bMessage>, n: nat) returns (chosen: Proposal)
    ensures chosen == Select(messages, n)
  {
    if messages == [] {
      return [];
    }
    var maxVrnd := ScanMaxVrnd(messages);
    if maxVrnd.None? {
      return [];
    }
    var collected := Collect(messages, maxVrnd.value);
    if |Unique(collected)| == 1 {
      return collected[0];
    }
    var winner := ScanCounters(collected, n / 4);
    if winner.Some? {
      return winner.value;
    }
    for i := 0 to |messages|
      invariant FirstNonEmpty(messages) == FirstNonEmpty(messages[i..])
    {
      if messages[i].vval != [] {
        return messages[i].vval;
      }
      assert messages[i..][1..] == messages[i + 1..];
    }
    return [];
  }

  method ScanMaxVrnd(messages: seq<Phase1bMessage>) returns (maxVrnd: Option<Rank>)
    ensures maxVrnd == MaxVrnd(messages)
  {
    maxVrnd := None;
    for i := 0 to |messages|
      invariant maxVrnd == MaxVrnd(messages[..i])
    {
      assert messages[..i + 1][..i] == messages[..i];
      var vrnd := messages[i].vrnd;
      if vrnd.Some? && (maxVrnd.None? || RankAtMost(maxVrnd.value, vrnd.value)) {
        maxVrnd := vrnd;
      }
    }
    assert messages[..|messages|] == messages;
  }

  method Collect(messages: seq<Phase1bMessage>, k: Rank) returns (collected: seq<Proposal>)
    ensures collected == VotesAt(messages, k)
  {
    collected := [];
    for i := 0 to |messages|
      invariant collected == VotesAt(messages[..i], k)
    {
      assert messages[..i + 1][..i] == messages[..i];
      if messages[i].vrnd == Some(k) && messages[i].vval != [] {
        collected := collected + [messages[i].vval];
      }
    }
    assert messages[..|messages|] == messages;
  }

  method ScanCounters(collected: seq<Proposal>, quarter: nat) returns (winner: Option<Proposal>)
    ensures winner == FirstAbove(collected, 0, quarter)
  {
    var counters: map<Proposal, nat> := map[];
    for i := 0 to |collected|
      invariant forall v :: multiset(collected[..i])[v] == if v in counters then counters[v] else 0
      invariant FirstAbove(collected, 0, quarter) == FirstAbove(collected, i, quarter)
    {
      var v := collected[i];
      var entry := if v in counters then counters[v] else 0;
      if entry + 1 > quarter {
        return Some(v);
      }
      counters := counters[v := entry + 1];
      assert collected[..i + 1] == collected[..i] + [v];
    }
    return None;
  }

  // ---------------------------------------------------------------- what the rule guarantees

  /** MaxVrnd is reported by some message and bounds every reported rank. */
  lemma {:induction false} MaxVrndIsMax(messages: seq<Phase1bMessage>)
    ensures var k := MaxVrnd(messages);
            && (forall m, r :: m in messages && m.vrnd == Some(r) ==> k.Some? && RankAtMost(r, k.value))
            && (k.Some? ==> exists m :: m in messages && m.vrnd == k)
  {
    if messages != [] {
      var front, last := messages[..|messages| - 1], messages[|messages| - 1];
      MaxVrndIsMax(front);
      assert messages == front + [last];
      if MaxVrnd(messages).Some? && MaxVrnd(messages) != last.vrnd {
        var m :| m in front && m.vrnd == MaxVrnd(front);
        assert m in messages;
      }
    }
  }

  lemma {:induction false} FirstNonEmptySound(messages: seq<Phase1bMessage>)
    ensures var v := FirstNonEmpty(messages);
            v != [] ==> exists m :: m in messages && m.vval == v
  {
    if messages != [] && messages[0].vval == [] {
      FirstNonEmptySound(messages[1..]);
      if FirstNonEmpty(messages) != [] {
        var m :| m in messages[1..] && m.vval == FirstNonEmpty(messages);
        assert m in messages;
      }
    }
  }

  lemma {:induction false} VotesAtSound(messages: seq<Phase1bMessage>, k: Rank, v: Proposal)
    ensures v in VotesAt(messages, k)
            <==> v != [] && exists m :: m in messages && m.vrnd == Some(k) && m.vval == v
  {
    if messages != [] {
      var front, last := messages[..|messages| - 1], messages[|messages| - 1];
      VotesAtSound(front, k, v);
      assert messages == front + [last];
      if v in VotesAt(messages, k) && v !in VotesAt(front, k) {
        assert last in messages;
      }
    }
  }

  lemma {:induction false} FirstAboveIsVote(votes: seq<Proposal>, i: nat, quarter: nat)
    requires i <= |votes|
    ensures var v := FirstAbove(votes, i, quarter); v.Some? ==> v.value in votes
    decreases |votes| - i
  {
    if i < |votes| {
      FirstAboveIsVote(votes, i + 1, quarter);
    }
  }

  lemma NonEmptyVotes(votes: seq<Proposal>)
    requires |Unique(votes)| == 1
    ensures votes != []
  {
    var v :| v in Unique(votes);
  }

  /** The rule never invents a value: it returns a reported vote or nothing. */
  lemma SelectsReportedVote(messages: seq<Phase1bMessage>, n: nat)
    ensures var v := Select(messages, n);
            v != [] ==> exists m :: m in messages && m.vval == v
  {
    var k := MaxVrnd(messages);
    FirstNonEmptySound(messages);
    if k.Some? {
      var votes := VotesAt(messages, k.value);
      FirstAboveIsVote(votes, 0, n / 4);
      if |Unique(votes)| == 1 {
        NonEmptyVotes(votes);
        VotesAtSound(messages, k.value, votes[0]);
      } else if FirstAbove(votes, 0, n / 4).Some? {
        VotesAtSound(messages, k.value, FirstAbove(votes, 0, n / 4).value);
      }
    }
  }

  /** If all votes reported at the highest rank name `v`, the rule returns `v`. */
  lemma SelectsUnanimousVote(messages: seq<Phase1bMessage>, n: nat, k: Rank, v: Proposal)
    requires MaxVrnd(messages) == Some(k)
    requires v != []
    requires forall m :: m in messages && m.vrnd == Some(k) ==> m.vval == v
    ensures Select(messages, n) == v
  {
    var votes := VotesAt(messages, k);
    MaxVrndIsMax(messages);
    assert Unique(votes) == {v} by {
      forall w ensures w in votes <==> w == v {
        VotesAtSound(messages, k, w);
      }
    }
    NonEmptyVotes(votes);
    assert votes[0] in Unique(votes);
  }

  // ---------------------------------------------------------------- the rule, by positions

  /** Message `i` casts a vote at rank `k`. */
  predicate CastAt(messages: seq<Phase1bMessage>, k: Rank, i: nat)
    requires i < |messages|
  {
    messages[i].vrnd == Some(k) && messages[i].vval != []
  }

  /** `k` is the highest rank any message reports. */
  ghost predicate Highest(messages: seq<Phase1bMessage>, k: Rank) {
    && (exists i :: 0 <= i < |messages| && messages[i].vrnd == Some(k))
    && forall i :: 0 <= i < |messages| && messages[i].vrnd.Some? ==> RankAtMost(messages[i].vrnd.value, k)
  }

  /** The positions up to `i` at which message `i`'s vote is cast at rank `k`. */
  function SameSoFar(messages: seq<Phase1bMessage>, k: Rank, i: nat): set<nat>
    requires i < |messages|
  {
    set j | 0 <= j <= i && CastAt(messages, k, j) && messages[j].vval == messages[i].vval
  }

  /** With message `i` its vote has been cast at rank `k` more than `quarter` times. */
  predicate Past(messages: seq<Phase1bMessage>, k: Rank, quarter: nat, i: nat)
    requires i < |messages|
  {
    CastAt(messages, k, i) && |SameSoFar(messages, k, i)| > quarter
  }

  ghost predicate FirstPast(messages: seq<Phase1bMessage>, k: Rank, quarter: nat, i: nat) {
    && i < |messages| && Past(messages, k, quarter, i)
    && forall j :: 0 <= j < i ==> !Past(messages, k, quarter, j)
  }

  /** Two different votes are cast at rank `k`. */
  ghost predicate Split(messages: seq<Phase1bMessage>, k: Rank) {
    exists i, j :: 0 <= i < |messages| && 0 <= j < |messages| && CastAt(messages, k, i) && CastAt(messages, k, j)
      && messages[i].vval != messages[j].vval
  }

  ghost predicate FirstVoteOfAny(messages: seq<Phase1bMessage>, i: nat) {
    && i < |messages| && messages[i].vval != []
    && forall j :: 0 <= j < i ==> messages[j].vval == []
  }

  lemma HighestIsMax(messages: seq<Phase1bMessage>, k: Rank)
    requires Highest(messages, k)
    ensures MaxVrnd(messages) == Some(k)
  {
    MaxVrndIsMax(messages);
    var i :| 0 <= i < |messages| && messages[i].vrnd == Some(k);
    assert messages[i] in messages;
    var m :| m in messages && m.vrnd == MaxVrnd(messages);
    var j :| 0 <= j < |messages| && messages[j] == m;
    assert RankAtMost(messages[j].vrnd.value, k);
  }

  lemma SameSoFarFront(front: seq<Phase1bMessage>, last: Phase1bMessage, k: Rank, i: nat)
    requires i < |front|
    ensures SameSoFar(front + [last], k, i) == SameSoFar(front, k, i)
    ensures CastAt(front + [last], k, i) == CastAt(front, k, i)
  {
    assert forall j :: 0 <= j < |front| ==> (front + [last])[j] == front[j];
  }

  /** The positions at which `v` is cast at rank `k`. */
  function CastFor(messages: seq<Phase1bMessage>, k: Rank, v: Proposal): set<nat> {
    set j | 0 <= j < |messages| && CastAt(messages, k, j) && messages[j].vval == v
  }

  lemma CastForLast(front: seq<Phase1bMessage>, last: Phase1bMessage, k: Rank, v: Proposal)
    ensures |CastFor(front + [last], k, v)|
            == |CastFor(front, k, v)| + if last.vrnd == Some(k) && last.vval != [] && last.vval == v then 1 else 0
  {
    var messages := front + [last];
    assert forall j :: 0 <= j < |front| ==> messages[j] == front[j];
    assert CastFor(messages, k, v)
        == CastFor(front, k, v) + if CastAt(messages, k, |front|) && last.vval == v then {|front|} else {};
  }

  /** Multiplicities among the collected votes are counts of positions. */
  lemma {:induction false} VoteMultiplicity(messages: seq<Phase1bMessage>, k: Rank, v: Proposal)
    ensures multiset(VotesAt(messages, k))[v] == |CastFor(messages, k, v)|
  {
    if messages != [] {
      var front, last := messages[..|messages| - 1], messages[|messages| - 1];
      assert messages == front + [last];
      VoteMultiplicity(front, k, v);
      CastForLast(front, last, k, v);
    }
  }

  lemma SameSoFarIsCount(front: seq<Phase1bMessage>, last: Phase1bMessage, k: Rank)
    requires last.vrnd == Some(k) && last.vval != []
    ensures |SameSoFar(front + [last], k, |front|)| == multiset(VotesAt(front, k))[last.vval] + 1
  {
    var messages := front + [last];
    assert SameSoFar(messages, k, |front|) == CastFor(messages, k, last.vval);
    CastForLast(front, last, k, last.vval);
    VoteMultiplicity(front, k, last.vval);
  }

  /** Scanning one vote more. */
  lemma {:induction false} AboveLast(votes: seq<Proposal>, v: Proposal, i: nat, quarter: nat)
    requires i <= |votes|
    ensures FirstAbove(votes + [v], i, quarter)
            == if FirstAbove(votes, i, quarter).Some? then FirstAbove(votes, i, quarter)
               else if multiset(votes)[v] + 1 > quarter then Some(v) else None
    decreases |votes| - i
  {
    var more := votes + [v];
    if i == |votes| {
      assert more[..i] == votes && more[i] == v;
      assert FirstAbove(more, i + 1, quarter) == None;
    } else {
      assert more[..i] == votes[..i] && more[i] == votes[i];
      AboveLast(votes, v, i + 1, quarter);
    }
  }

  /** What the counter scan finds is the vote of the first message past the quarter. */
  ghost predicate ScanRight(messages: seq<Phase1bMessage>, k: Rank, quarter: nat) {
    var above := FirstAbove(VotesAt(messages, k), 0, quarter);
    if above.Some? then exists i: nat :: FirstPast(messages, k, quarter, i) && above == Some(messages[i].vval)
    else forall i :: 0 <= i < |messages| ==> !Past(messages, k, quarter, i)
  }

  lemma PastFront(front: seq<Phase1bMessage>, last: Phase1bMessage, k: Rank, quarter: nat, i: nat)
    requires i < |front|
    ensures Past(front + [last], k, quarter, i) == Past(front, k, quarter, i)
  {
    SameSoFarFront(front, last, k, i);
  }

  lemma ScanStep(front: seq<Phase1bMessage>, last: Phase1bMessage, k: Rank, quarter: nat)
    requires ScanRight(front, k, quarter)
    ensures ScanRight(front + [last], k, quarter)
  {
    var messages, votes := front + [last], VotesAt(front, k);
    assert messages[..|front|] == front && messages[|front|] == last;
    PastFronts(front, last, k, quarter);
    if last.vrnd == Some(k) && last.vval != [] {
      ScanCast(front, last, k, quarter);
    } else {
      assert VotesAt(messages, k) == votes && !Past(messages, k, quarter, |front|);
      ScanSame(front, last, k, quarter);
    }
  }

  lemma PastFronts(front: seq<Phase1bMessage>, last: Phase1bMessage, k: Rank, quarter: nat)
    ensures forall i: nat {:trigger Past(front, k, quarter, i)} :: i < |front| ==>
              Past(front + [last], k, quarter, i) == Past(front, k, quarter, i)
    ensures forall i: nat :: FirstPast(front, k, quarter, i) ==>
              FirstPast(front + [last], k, quarter, i) && (front + [last])[i] == front[i]
  {
    forall i: nat | i < |front| ensures Past(front + [last], k, quarter, i) == Past(front, k, quarter, i) {
      PastFront(front, last, k, quarter, i);
    }
  }

  /** The scan found something before the last message, or nothing in it either. */
  lemma ScanSame(front: seq<Phase1bMessage>, last: Phase1bMessage, k: Rank, quarter: nat)
    requires ScanRight(front, k, quarter)
    requires FirstAbove(VotesAt(front + [last], k), 0, quarter) == FirstAbove(VotesAt(front, k), 0, quarter)
    requires FirstAbove(VotesAt(front, k), 0, quarter).None? ==> !Past(front + [last], k, quarter, |front|)
    ensures ScanRight(front + [last], k, quarter)
  {
    PastFronts(front, last, k, quarter);
    if FirstAbove(VotesAt(front, k), 0, quarter).Some? {
      var i: nat :| FirstPast(front, k, quarter, i)
                    && FirstAbove(VotesAt(front, k), 0, quarter) == Some(front[i].vval);
      assert FirstPast(front + [last], k, quarter, i);
    }
  }

  /** The last message casts a vote at rank `k`. */
  lemma ScanCast(front: seq<Phase1bMessage>, last: Phase1bMessage, k: Rank, quarter: nat)
    requires ScanRight(front, k, quarter) && last.vrnd == Some(k) && last.vval != []
    ensures ScanRight(front + [last], k, quarter)
  {
    var messages, votes := front + [last], VotesAt(front, k);
    assert messages[..|front|] == front && messages[|front|] == last;
    AboveLast(votes, last.vval, 0, quarter);
    SameSoFarIsCount(front, last, k);
    assert VotesAt(messages, k) == votes + [last.vval];
    if FirstAbove(votes, 0, quarter).Some? || FirstAbove(votes + [last.vval], 0, quarter).None? {
      ScanSame(front, last, k, quarter);
    } else {
      PastFronts(front, last, k, quarter);
      assert forall j: nat :: j < |front| ==> !Past(front, k, quarter, j) && !Past(messages, k, quarter, j);
      assert FirstPast(messages, k, quarter, |front|);
    }
  }

  lemma {:induction false} ScanIsRight(messages: seq<Phase1bMessage>, k: Rank, quarter: nat)
    ensures ScanRight(messages, k, quarter)
  {
    if messages != [] {
      var front, last := messages[..|messages| - 1], messages[|messages| - 1];
      assert messages == front + [last];
      ScanIsRight(front, k, quarter);
      ScanStep(front, last, k, quarter);
    }
  }

  /** A vote cast at rank `k` is collected, and nothing else is. */
  lemma CollectedByPosition(messages: seq<Phase1bMessage>, k: Rank, v: Proposal)
    ensures v in VotesAt(messages, k)
            <==> exists i :: 0 <= i < |messages| && CastAt(messages, k, i) && messages[i].vval == v
  {
    VotesAtSound(messages, k, v);
    if v in VotesAt(messages, k) {
      var m :| m in messages && m.vrnd == Some(k) && m.vval == v;
      var i :| 0 <= i < |messages| && messages[i] == m;
      assert CastAt(messages, k, i);
    }
  }

  /** The collected votes name one value exactly when some vote is cast and no two differ. */
  lemma UnanimousByPosition(messages: seq<Phase1bMessage>, k: Rank)
    ensures |Unique(VotesAt(messages, k))| == 1
            <==> (exists i :: 0 <= i < |messages| && CastAt(messages, k, i)) && !Split(messages, k)
  {
    var votes := VotesAt(messages, k);
    forall v ensures v in Unique(votes) <==>
        exists i :: 0 <= i < |messages| && CastAt(messages, k, i) && messages[i].vval == v {
      CollectedByPosition(messages, k, v);
    }
    if |Unique(votes)| == 1 {
      NonEmptyVotes(votes);
      if Split(messages, k) {
        var i, j :| 0 <= i < |messages| && 0 <= j < |messages| && CastAt(messages, k, i) && CastAt(messages, k, j)
          && messages[i].vval != messages[j].vval;
        OneElement(Unique(votes), messages[i].vval, messages[j].vval);
      }
      assert votes[0] in Unique(votes);
    } else if i :| 0 <= i < |messages| && CastAt(messages, k, i) {
      var v := messages[i].vval;
      if !Split(messages, k) {
        assert Unique(votes) == {v};
      }
    }
  }

  /** A single value voted for at the highest rank is chosen, empty reports notwithstanding. */
  lemma SelectsOnlyVote(messages: seq<Phase1bMessage>, n: nat, k: Rank, i: nat)
    requires Highest(messages, k) && i < |messages| && CastAt(messages, k, i) && !Split(messages, k)
    ensures Select(messages, n) == messages[i].vval
  {
    HighestIsMax(messages, k);
    UnanimousByPosition(messages, k);
    var votes := VotesAt(messages, k);
    NonEmptyVotes(votes);
    CollectedByPosition(messages, k, votes[0]);
  }

  /** Of several, the first to be cast more than n/4 times. */
  lemma SelectsFirstPast(messages: seq<Phase1bMessage>, n: nat, k: Rank, i: nat)
    requires Highest(messages, k) && FirstPast(messages, k, n / 4, i)
    ensures Select(messages, n) == messages[i].vval
  {
    if !Split(messages, k) {
      SelectsOnlyVote(messages, n, k, i);
    } else {
      HighestIsMax(messages, k);
      UnanimousByPosition(messages, k);
      ScanIsRight(messages, k, n / 4);
      var j: nat :| FirstPast(messages, k, n / 4, j)
        && FirstAbove(VotesAt(messages, k), 0, n / 4) == Some(messages[j].vval);
      assert i == j;
    }
  }

  lemma {:induction false} FirstNonEmptyAt(messages: seq<Phase1bMessage>, i: nat)
    requires FirstVoteOfAny(messages, i)
    ensures FirstNonEmpty(messages) == messages[i].vval
  {
    if i > 0 {
      assert messages[0].vval == [];
      assert forall j :: 0 <= j < i - 1 ==> messages[1..][j] == messages[j + 1];
      FirstNonEmptyAt(messages[1..], i - 1);
    }
  }

  /** If none is, and they differ or there are none, the first vote of any rank. */
  lemma SelectsFirstVote(messages: seq<Phase1bMessage>, n: nat, k: Rank, i: nat)
    requires Highest(messages, k) && FirstVoteOfAny(messages, i)
    requires forall j :: 0 <= j < |messages| ==> !Past(messages, k, n / 4, j)
    requires Split(messages, k) || forall j :: 0 <= j < |messages| ==> !CastAt(messages, k, j)
    ensures Select(messages, n) == messages[i].vval
  {
    HighestIsMax(messages, k);
    UnanimousByPosition(messages, k);
    ScanIsRight(messages, k, n / 4);
    FirstNonEmptyAt(messages, i);
  }

  /** A vote cast at most n/4 times in all is never past the quarter. */
  lemma RarelyCast(messages: seq<Phase1bMessage>, k: Rank, quarter: nat)
    requires forall v :: |CastFor(messages, k, v)| <= quarter
    ensures forall j :: 0 <= j < |messages| ==> !Past(messages, k, quarter, j)
  {
    forall j | 0 <= j < |messages| ensures !Past(messages, k, quarter, j) {
      SubsetSize(SameSoFar(messages, k, j), CastFor(messages, k, messages[j].vval));
    }
  }

  /** So, for different votes at the highest rank none of which is cast more than n/4 times. */
  lemma SelectsFallback(messages: seq<Phase1bMessage>, n: nat, k: Rank, i: nat)
    requires Highest(messages, k) && Split(messages, k) && FirstVoteOfAny(messages, i)
    requires forall v :: |CastFor(messages, k, v)| <= n / 4
    ensures Select(messages, n) == messages[i].vval
  {
    RarelyCast(messages, k, n / 4);
    SelectsFirstVote(messages, n, k, i);
  }

  lemma {:induction false} FirstVoteExists(messages: seq<Phase1bMessage>, j: nat) returns (i: nat)
    requires j < |messages| && messages[j].vval != []
    ensures FirstVoteOfAny(messages, i)
  {
    if m: nat :| m < j && messages[m].vval != [] {
      i := FirstVoteExists(messages, m);
    } else {
      i := j;
    }
  }

  lemma {:induction false} FirstPastExists(messages: seq<Phase1bMessage>, k: Rank, quarter: nat, j: nat)
    returns (i: nat)
    requires j < |messages| && Past(messages, k, quarter, j)
    ensures FirstPast(messages, k, quarter, i)
  {
    if m: nat :| m < j && Past(messages, k, quarter, m) {
      i := FirstPastExists(messages, k, quarter, m);
    } else {
      i := j;
    }
  }

  /** The rule in one piece: a value is chosen exactly when some rank and some vote is reported; it is
      the only vote of the highest rank, or else the first of them past n/4, or else the first of any
      rank. */
  ghost predicate Picks(messages: seq<Phase1bMessage>, n: nat, v: Proposal) {
    if (forall i :: 0 <= i < |messages| ==> messages[i].vrnd.None?)
       || (forall i :: 0 <= i < |messages| ==> messages[i].vval == [])
    then v == []
    else exists k, i: nat :: Highest(messages, k) && PicksAt(messages, n, k, i) && v == messages[i].vval
  }

  ghost predicate PicksAt(messages: seq<Phase1bMessage>, n: nat, k: Rank, i: nat) {
    i < |messages| &&
    if (exists j :: 0 <= j < |messages| && CastAt(messages, k, j)) && !Split(messages, k)
    then CastAt(messages, k, i)
    else if exists j :: 0 <= j < |messages| && Past(messages, k, n / 4, j)
    then FirstPast(messages, k, n / 4, i)
    else FirstVoteOfAny(messages, i)
  }

  lemma PickedIsSelected(messages: seq<Phase1bMessage>, n: nat, k: Rank, i: nat)
    requires Highest(messages, k) && PicksAt(messages, n, k, i)
    ensures Select(messages, n) == messages[i].vval
  {
    if (exists j :: 0 <= j < |messages| && CastAt(messages, k, j)) && !Split(messages, k) {
      SelectsOnlyVote(messages, n, k, i);
    } else if exists j :: 0 <= j < |messages| && Past(messages, k, n / 4, j) {
      SelectsFirstPast(messages, n, k, i);
    } else {
      SelectsFirstVote(messages, n, k, i);
    }
  }

  /** Some position is picked as soon as a vote is reported. */
  lemma SomePick(messages: seq<Phase1bMessage>, n: nat, k: Rank, j: nat) returns (i: nat)
    requires j < |messages| && messages[j].vval != []
    ensures PicksAt(messages, n, k, i)
  {
    if (exists m :: 0 <= m < |messages| && CastAt(messages, k, m)) && !Split(messages, k) {
      i :| 0 <= i < |messages| && CastAt(messages, k, i);
    } else if m: nat :| m < |messages| && Past(messages, k, n / 4, m) {
      i := FirstPastExists(messages, k, n / 4, m);
    } else {
      i := FirstVoteExists(messages, j);
    }
  }

  lemma SomeHighest(messages: seq<Phase1bMessage>, j: nat) returns (k: Rank)
    requires j < |messages| && messages[j].vrnd.Some?
    ensures Highest(messages, k)
  {
    MaxVrndIsMax(messages);
    assert messages[j] in messages && messages[j].vrnd == Some(messages[j].vrnd.value);
    k := MaxVrnd(messages).value;
    var m :| m in messages && m.vrnd == Some(k);
    forall i | 0 <= i < |messages| && messages[i].vrnd.Some? ensures RankAtMost(messages[i].vrnd.value, k) {
      assert messages[i] in messages && messages[i].vrnd == Some(messages[i].vrnd.value);
    }
  }

  lemma NothingToSelect(messages: seq<Phase1bMessage>, n: nat)
    requires (forall i :: 0 <= i < |messages| ==> messages[i].vrnd.None?)
             || (forall i :: 0 <= i < |messages| ==> messages[i].vval == [])
    ensures Select(messages, n) == []
  {
    if forall i :: 0 <= i < |messages| ==> messages[i].vrnd.None? {
      MaxVrndIsMax(messages);
    } else {
      SelectsReportedVote(messages, n);
      assert forall m :: m in messages ==> m.vval == [];
    }
  }

  /** Nothing is chosen exactly when no message carries a rank or none carries a vote. */
  lemma SelectsNothingIff(messages: seq<Phase1bMessage>, n: nat)
    ensures Select(messages, n) == []
            <==> (forall i :: 0 <= i < |messages| ==> messages[i].vrnd.None?)
                 || (forall i :: 0 <= i < |messages| ==> messages[i].vval == [])
  {
    if i, j :| 0 <= i < |messages| && messages[i].vrnd.Some? && 0 <= j < |messages| && messages[j].vval != [] {
      var k := SomeHighest(messages, i);
      var p := SomePick(messages, n, k, j);
      PickedIsSelected(messages, n, k, p);
    } else {
      NothingToSelect(messages, n);
    }
  }

  /** The rule chooses exactly what the description by positions picks. */
  lemma SelectIff(messages: seq<Phase1bMessage>, n: nat, v: Proposal)
    ensures Select(messages, n) == v <==> Picks(messages, n, v)
  {
    SelectsNothingIff(messages, n);
    if Select(messages, n) != [] {
      SelectedIsPicked(messages, n);
      if Picks(messages, n, v) {
        PickedOnce(messages, n, v);
      }
    }
  }

  lemma SelectedIsPicked(messages: seq<Phase1bMessage>, n: nat)
    requires Select(messages, n) != []
    ensures Picks(messages, n, Select(messages, n))
  {
    SelectsNothingIff(messages, n);
    var i: nat :| i < |messages| && messages[i].vrnd.Some?;
    var j: nat :| j < |messages| && messages[j].vval != [];
    var k := SomeHighest(messages, i);
    var p := SomePick(messages, n, k, j);
    PickedIsSelected(messages, n, k, p);
  }

  lemma PickedOnce(messages: seq<Phase1bMessage>, n: nat, v: Proposal)
    requires Select(messages, n) != [] && Picks(messages, n, v)
    ensures Select(messages, n) == v
  {
    SelectsNothingIff(messages, n);
    var k, p: nat :| Highest(messages, k) && PicksAt(messages, n, k, p) && v == messages[p].vval;
    PickedIsSelected(messages, n, k, p);
  }

  /** Messages whose sender is outside `voters`. */
  function Outsiders(messages: seq<Phase1bMessage>, voters: set<Endpoint>): (count: nat) {
    if messages == [] then 0
    else
      Outsiders(messages[..|messages| - 1], voters)
      + if messages[|messages| - 1].sender.Some? && messages[|messages| - 1].sender.value in voters then 0 else 1
  }

  predicate DistinctSenders(messages: seq<Phase1bMessage>) {
    && (forall i :: 0 <= i < |messages| ==> messages[i].sender.Some?)
    && (forall i, j :: 0 <= i < j < |messages| ==> messages[i].sender != messages[j].sender)
  }

  function Senders(messages: seq<Phase1bMessage>): (senders: set<Endpoint>)
    requires forall m :: m in messages ==> m.sender.Some?
  {
    if messages == [] then {}
    else Senders(messages[..|messages| - 1]) + {messages[|messages| - 1].sender.value}
  }

  lemma {:induction false} SendersSound(messages: seq<Phase1bMessage>, x: Endpoint)
    requires forall m :: m in messages ==> m.sender.Some?
    ensures x in Senders(messages) <==> exists i :: 0 <= i < |messages| && messages[i].sender == Some(x)
  {
    if messages != [] {
      var front := messages[..|messages| - 1];
      SendersSound(front, x);
      if i :| 0 <= i < |messages| && messages[i].sender == Some(x) {
        assert i < |front| ==> front[i].sender == Some(x);
      }
    }
  }

  lemma {:induction false} SendersSize(messages: seq<Phase1bMessage>)
    requires DistinctSenders(messages)
    ensures |Senders(messages)| == |messages|
  {
    if messages != [] {
      var front := messages[..|messages| - 1];
      SendersSound(front, messages[|messages| - 1].sender.value);
      SendersSize(front);
    }
  }

  lemma {:induction false} OutsidersBound(messages: seq<Phase1bMessage>, voters: set<Endpoint>, members: set<Endpoint>)
    requires DistinctSenders(messages)
    requires Senders(messages) <= members && voters <= members
    ensures Outsiders(messages, voters) <= |members| - |voters|
  {
    OutsidersAreSenders(messages, voters);
    SubsetSize(Senders(messages) - voters, members - voters);
  }

  lemma {:induction false} OutsidersAreSenders(messages: seq<Phase1bMessage>, voters: set<Endpoint>)
    requires DistinctSenders(messages)
    ensures Outsiders(messages, voters) == |Senders(messages) - voters|
  {
    if messages != [] {
      var front, x := messages[..|messages| - 1], messages[|messages| - 1].sender.value;
      OutsidersAreSenders(front, voters);
      SendersSound(front, x);
      assert Senders(messages) - voters
          == (Senders(front) - voters) + if x in voters then {} else {x};
    }
  }

  /** If the voters in `messages` all voted `v` at rank `k`, then `v` is missing from at most the
      outsiders' messages, and any other value occurs only there. */
  lemma {:induction false} VoteCounts(messages: seq<Phase1bMessage>, k: Rank, v: Proposal, voters: set<Endpoint>,
                                      w: Proposal)
    requires v != [] && w != v
    requires forall m :: m in messages && m.sender.Some? && m.sender.value in voters
                         ==> m.vrnd == Some(k) && m.vval == v
    ensures multiset(VotesAt(messages, k))[v] + Outsiders(messages, voters) >= |messages|
    ensures multiset(VotesAt(messages, k))[w] <= Outsiders(messages, voters)
  {
    if messages != [] {
      var front, last := messages[..|messages| - 1], messages[|messages| - 1];
      assert messages == front + [last];
      VoteCounts(front, k, v, voters, w);
    }
  }

  lemma {:induction false} FirstAboveFinds(votes: seq<Proposal>, i: nat, quarter: nat, v: Proposal)
    requires i <= |votes|
    requires forall w :: w != v ==> multiset(votes)[w] <= quarter
    requires multiset(votes)[v] > quarter
    requires multiset(votes[..i])[v] <= quarter
    ensures FirstAbove(votes, i, quarter) == Some(v)
    decreases |votes| - i
  {
    assert votes[..|votes|] == votes;
    if i < |votes| {
      var w := votes[i];
      assert votes == votes[..i] + [w] + votes[i + 1..];
      assert votes[..i + 1] == votes[..i] + [w];
      if multiset(votes[..i])[w] + 1 > quarter {
        assert multiset(votes)[w] >= multiset(votes[..i])[w] + 1;
      } else {
        FirstAboveFinds(votes, i + 1, quarter, v);
      }
    }
  }

  /** Fast quorum of N acceptors, as `handle_fast_round_proposal` computes it. */
  function FastQuorum(n: nat): (q: nat)
    ensures n > 0 ==> 0 < q <= n && 2 * q > n && q + n / 2 + 1 > n
  {
    n - (if n == 0 then 0 else n - 1) / 4
  }

  /** Safety of the rule after the fast round, for every N: when a fast quorum voted `v`, any
      majority of distinct promises whose highest vote is the fast vote makes the rule pick `v`. */
  lemma SelectsFastChosen(messages: seq<Phase1bMessage>, members: set<Endpoint>, voters: set<Endpoint>, k: Rank,
                          v: Proposal)
    requires DistinctSenders(messages) && Senders(messages) <= members
    requires |messages| > |members| / 2
    requires voters <= members && |voters| >= FastQuorum(|members|)
    requires v != []
    requires MaxVrnd(messages) == Some(k)
    requires forall m :: m in messages && m.sender.value in voters ==> m.vrnd == Some(k) && m.vval == v
    ensures Select(messages, |members|) == v
  {
    var n := |members|;
    var votes := VotesAt(messages, k);
    OutsidersBound(messages, voters, members);
    assert Outsiders(messages, voters) <= n / 4;
    VoteCounts(messages, k, v, voters, []);
    assert multiset(votes)[v] > n / 4;
    if |Unique(votes)| == 1 {
      assert v in votes;
      assert votes[0] in Unique(votes) && v in Unique(votes);
      OneElement(Unique(votes), v, votes[0]);
    } else {
      forall w | w != v ensures multiset(votes)[w] <= n / 4 {
        VoteCounts(messages, k, v, voters, w);
      }
      FirstAboveFinds(votes, 0, n / 4, v);
    }
  }

  lemma OneElement<T>(s: set<T>, x: T, y: T)
    requires |s| == 1 && x in s && y in s
    ensures x == y
  {
    if x != y {
      SubsetSize({x, y}, s);
    }
  }
}
