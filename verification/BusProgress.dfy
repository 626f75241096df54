/** What the bus gets done: a broadcast reaches every instance once, a quorum of equal fast votes
    decides everywhere, and so does one classic round as soon as somebody voted. */
module BusProgress {
  import opened Types
  import opened Listings
  import opened CoordinatorRule
  import opened Messages
  import opened ClassicPaxos
  import opened FastConsensus
  import opened BusStorm

  // ---------------------------------------------------------------- a broadcast reaches everybody

  /** Every instance has handled the request, on its own. */
  function Each(b: Bus, request: Request): Bus
    requires Shaped(b)
  {
    b.(nodes := seq(|b.nodes|, i requires 0 <= i < |b.nodes| => HandleRequest(b.nodes[i], request).0),
       decisions := seq(|b.nodes|, i requires 0 <= i < |b.nodes| =>
                                     Recorded(HandleRequest(b.nodes[i], request).1, b.decisions[i])))
  }

  /** What instances `i` and later answer, each from its own state. */
  function EachAnswer(b: Bus, i: nat, request: Request): seq<Pending>
    decreases |b.nodes| - i
  {
    if i >= |b.nodes| then [] else Answers(b, i, request) + EachAnswer(b, i + 1, request)
  }

  lemma BroadcastReachesEach(b: Bus, request: Request)
    requires Shaped(b)
    ensures HandledFrom(b, 0, request) == Each(b, request) && AnswersFrom(b, 0, request) == EachAnswer(b, 0, request)
  {
    HandledEach(b, 0, request);
    AnswersEach(b, b, 0, request);
  }

  lemma {:induction false} HandledEach(b: Bus, i: nat, request: Request)
    requires Shaped(b) && i <= |b.nodes|
    ensures var b' := HandledFrom(b, i, request);
            && Shaped(b') && b' == b.(nodes := b'.nodes, decisions := b'.decisions) && |b'.nodes| == |b.nodes|
            && forall k :: 0 <= k < |b.nodes| ==>
                 && b'.nodes[k] == (if k < i then b.nodes[k] else Each(b, request).nodes[k])
                 && b'.decisions[k] == if k < i then b.decisions[k] else Each(b, request).decisions[k]
    decreases |b.nodes| - i
  {
    if i < |b.nodes| {
      HandledEach(Handled(b, i, request), i + 1, request);
    }
  }

  lemma {:induction false} AnswersEach(b: Bus, b': Bus, i: nat, request: Request)
    requires Shaped(b) && Shaped(b') && b'.endpoints == b.endpoints
    requires forall k :: i <= k < |b.nodes| ==> b'.nodes[k] == b.nodes[k]
    ensures AnswersFrom(b', i, request) == EachAnswer(b, i, request)
    decreases |b.nodes| - i
  {
    if i < |b.nodes| {
      AnswersEach(b, Handled(b', i, request), i + 1, request);
    }
  }

  /** Instance `k` answers with one item. */
  predicate AnswersWith(b: Bus, k: nat, request: Request, item: Pending)
    requires k < |b.nodes|
  {
    Answers(b, k, request) == [item]
  }

  /** One answer each, or none. */
  lemma {:induction false} OneAnswerEach(b: Bus, i: nat, request: Request, items: seq<Pending>)
    requires i <= |b.nodes| == |items|
    requires forall k :: 0 <= k < |items| ==> AnswersWith(b, k, request, items[k])
    ensures EachAnswer(b, i, request) == items[i..]
    decreases |b.nodes| - i
  {
    if i < |b.nodes| {
      OneAnswerEach(b, i + 1, request, items);
      assert AnswersWith(b, i, request, items[i]);
      assert items[i..] == [items[i]] + items[i + 1..];
    } else {
      assert items[i..] == [];
    }
  }

  lemma {:induction false} NoAnswers(b: Bus, i: nat, request: Request)
    requires forall k :: 0 <= k < |b.nodes| ==> Answers(b, k, request) == []
    ensures EachAnswer(b, i, request) == []
    decreases |b.nodes| - i
  {
    if i < |b.nodes| {
      NoAnswers(b, i + 1, request);
    }
  }

  /** One step of `drain`. */
  lemma DrainStep(b: Bus, item: Pending, rest: seq<Pending>)
    requires Shaped(b) && Queued(|b.nodes|, [item] + rest)
    ensures Queued(|b.nodes|, [item]) && Shaped(AfterItem(b, item))
    ensures |AfterItem(b, item).nodes| == |b.nodes| && Queued(|b.nodes|, rest + Fallout(b, item))
    ensures Drained(b, [item] + rest) == Drained(AfterItem(b, item), rest + Fallout(b, item))
  {
    var queue := [item] + rest;
    assert queue[0] == item && queue[1..] == rest;
    QueuedNext(b, queue);
    DeliveryKeepsShape(b, item);
  }

  /** A broadcast whose kind is not dropped, answered by nobody or by everybody. */
  lemma DrainBroadcast(b: Bus, request: Request, rest: seq<Pending>)
    requires Shaped(b) && Queued(|b.nodes|, rest) && !Dropped(b, BroadcastItem(request))
    ensures Shaped(Each(b, request)) && Queued(|b.nodes|, [BroadcastItem(request)] + rest)
    ensures Queued(|b.nodes|, rest + EachAnswer(b, 0, request))
    ensures Drained(b, [BroadcastItem(request)] + rest) == Drained(Each(b, request), rest + EachAnswer(b, 0, request))
  {
    BroadcastReachesEach(b, request);
    DrainStep(b, BroadcastItem(request), rest);
  }

  /** A broadcast alone on the queue. */
  lemma DrainAlone(b: Bus, request: Request)
    requires Shaped(b) && !Dropped(b, BroadcastItem(request))
    ensures Shaped(Each(b, request)) && Queued(|b.nodes|, [BroadcastItem(request)])
    ensures Queued(|b.nodes|, EachAnswer(b, 0, request))
    ensures Drained(b, [BroadcastItem(request)]) == Drained(Each(b, request), EachAnswer(b, 0, request))
  {
    DrainBroadcast(b, request, []);
    NothingBefore([BroadcastItem(request)], EachAnswer(b, 0, request));
  }

  lemma NothingBefore(a: seq<Pending>, b: seq<Pending>)
    ensures a + [] == a && [] + b == b
  {
  }

  /** A broadcast alone on the queue, of a kind that is dropped. */
  lemma DropAlone(b: Bus, request: Request)
    requires Shaped(b) && Dropped(b, BroadcastItem(request))
    ensures Queued(|b.nodes|, [BroadcastItem(request)]) && Drained(b, [BroadcastItem(request)]) == b
  {
    DrainStep(b, BroadcastItem(request), []);
    NothingBefore([BroadcastItem(request)], []);
  }

  lemma {:induction false} PositionIs(endpoints: seq<Endpoint>, j: nat)
    requires Distinct(endpoints) && j < |endpoints|
    ensures Position(endpoints, endpoints[j]) == j
  {
    var i := Position(endpoints, endpoints[j]);
    assert endpoints[i] == endpoints[j];
  }

  // ---------------------------------------------------------------- the fast round

  predicate Below(voters: seq<nat>, n: nat) { forall k :: 0 <= k < |voters| ==> voters[k] < n }

  /** The bus after the instances `voters` proposed `v`, one after another. */
  function Proposed(b: Bus, voters: seq<nat>, v: Proposal): (b': Bus)
    requires Shaped(b) && Below(voters, |b.nodes|)
    ensures Shaped(b') && b'.endpoints == b.endpoints
    decreases |voters|
  {
    if voters == [] then b
    else
      var before := Proposed(b, voters[..|voters| - 1], v);
      var op := ProposeOp(voters[|voters| - 1], v);
      PerformKeepsShape(before, op);
      Perform(before, op)
  }

  /** An instance that heard the votes of `senders` for `v` and no others. */
  predicate HasHeard(s: FastState, me: Endpoint, configurationId: int, n: nat, senders: set<Endpoint>, v: Proposal) {
    && s.myAddr == me && s.configurationId == configurationId && s.membershipSize == n
    && (s.decided <==> |senders| >= FastQuorum(n))
    && (!s.decided ==> s.votesReceived == senders && Votes(s, v) == |senders|)
  }

  /** One more vote for `v`: the instance decides exactly when it completes the quorum. */
  lemma HearsOne(s: FastState, me: Endpoint, configurationId: int, n: nat, senders: set<Endpoint>, v: Proposal,
                 sender: Endpoint)
    requires HasHeard(s, me, configurationId, n, senders, v) && sender !in senders
    ensures var (s', outs) := OnFastVote(s, FastRoundPhase2bMessage(configurationId, v, Some(sender)));
            && HasHeard(s', me, configurationId, n, senders + {sender}, v)
            && outs == if s'.decided && !s.decided then [Decision(v)] else []
  {
  }

  function SendersOf(endpoints: seq<Endpoint>, voters: seq<nat>): set<Endpoint>
    requires Below(voters, |endpoints|)
  {
    set k | 0 <= k < |voters| :: endpoints[voters[k]]
  }

  lemma SendersLast(endpoints: seq<Endpoint>, front: seq<nat>, last: nat)
    requires Distinct(endpoints) && Distinct(front + [last]) && Below(front + [last], |endpoints|)
    ensures Distinct(front) && Below(front, |endpoints|) && last < |endpoints|
    ensures SendersOf(endpoints, front + [last]) == SendersOf(endpoints, front) + {endpoints[last]}
    ensures endpoints[last] !in SendersOf(endpoints, front)
  {
    var voters := front + [last];
    assert forall k :: 0 <= k < |front| ==> voters[k] == front[k];
    assert voters[|front|] == last;
    forall e | e in SendersOf(endpoints, front) ensures e in SendersOf(endpoints, voters) {
      var k :| 0 <= k < |front| && endpoints[front[k]] == e;
      assert endpoints[voters[k]] == e;
    }
    assert endpoints[voters[|front|]] in SendersOf(endpoints, voters);
  }

  /** Every instance heard the votes of `senders` for `v`, and recorded `v` if they are a quorum. */
  ghost predicate AllHeard(b: Bus, configurationId: int, senders: set<Endpoint>, v: Proposal) {
    && Shaped(b)
    && forall i {:trigger b.nodes[i]} :: 0 <= i < |b.nodes| ==>
         && HasHeard(b.nodes[i], b.endpoints[i], configurationId, |b.nodes|, senders, v)
         && b.decisions[i] == if |senders| >= FastQuorum(|b.nodes|) then Some(v) else None
  }

  lemma OneProposal(b: Bus, configurationId: int, senders: set<Endpoint>, x: nat, v: Proposal)
    requires AllHeard(b, configurationId, senders, v) && x < |b.nodes| && b.endpoints[x] !in senders
    requires FastRoundKind !in b.dropped
    ensures AllHeard(Perform(b, ProposeOp(x, v)), configurationId, senders + {b.endpoints[x]}, v)
    ensures Perform(b, ProposeOp(x, v)).dropped == b.dropped
  {
    ProposalIs(b, configurationId, senders, x, v);
    VoteHeard(Registered(b, x, v), configurationId, senders, b.endpoints[x], v);
  }

  /** A proposal is its vote, broadcast to all. */
  lemma ProposalIs(b: Bus, configurationId: int, senders: set<Endpoint>, x: nat, v: Proposal)
    requires AllHeard(b, configurationId, senders, v) && x < |b.nodes| && b.endpoints[x] !in senders
    requires FastRoundKind !in b.dropped
    ensures AllHeard(Registered(b, x, v), configurationId, senders, v)
    ensures Perform(b, ProposeOp(x, v))
            == Each(Registered(b, x, v),
                    FastVote(FastRoundPhase2bMessage(configurationId, v, Some(b.endpoints[x]))))
  {
    assert HasHeard(b.nodes[x], b.endpoints[x], configurationId, |b.nodes|, senders, v);
    ProposalDrains(b, x, v);
    DrainAlone(Registered(b, x, v), FastVote(FastRoundPhase2bMessage(configurationId, v, Some(b.endpoints[x]))));
    VoteHeard(Registered(b, x, v), configurationId, senders, b.endpoints[x], v);
  }

  lemma ProposalQueued(endpoints: seq<Endpoint>, s: FastState, v: Proposal, d: Option<Proposal>)
    ensures var outs := Propose(s, v).1;
            && AllEnqueued(endpoints, outs)
               == [BroadcastItem(FastVote(FastRoundPhase2bMessage(s.configurationId, v, Some(s.myAddr))))]
            && Recorded(outs, d) == d
  {
    var outs := Propose(s, v).1;
    assert outs[1..] == [ScheduleClassicFallback] && outs[1..][1..] == [];
    assert AllEnqueued(endpoints, outs[1..]) == [] && Recorded(outs[1..], d) == d;
  }

  /** The bus once instance `x` registered its own vote for `v`. */
  function Registered(b: Bus, x: nat, v: Proposal): Bus
    requires Shaped(b) && x < |b.nodes|
  {
    Moved(b, x, Propose(b.nodes[x], v).0, Propose(b.nodes[x], v).1)
  }

  /** A proposal is the drain of one vote. */
  lemma ProposalDrains(b: Bus, x: nat, v: Proposal)
    requires Shaped(b) && x < |b.nodes|
    ensures var m := FastRoundPhase2bMessage(b.nodes[x].configurationId, v, Some(b.nodes[x].myAddr));
            && Shaped(Registered(b, x, v)) && Queued(|b.nodes|, [BroadcastItem(FastVote(m))])
            && Perform(b, ProposeOp(x, v)) == Drained(Registered(b, x, v), [BroadcastItem(FastVote(m))])
            && Registered(b, x, v) == b.(nodes := b.nodes[x := Propose(b.nodes[x], v).0])
  {
    ProposalQueued(b.endpoints, b.nodes[x], v, b.decisions[x]);
    assert Registered(b, x, v).decisions == b.decisions;
  }

  /** A vote broadcast to all. */
  lemma VoteHeard(b: Bus, configurationId: int, senders: set<Endpoint>, sender: Endpoint, v: Proposal)
    requires AllHeard(b, configurationId, senders, v) && sender !in senders
    ensures var request := FastVote(FastRoundPhase2bMessage(configurationId, v, Some(sender)));
            AllHeard(Each(b, request), configurationId, senders + {sender}, v) && EachAnswer(b, 0, request) == []
  {
    var request := FastVote(FastRoundPhase2bMessage(configurationId, v, Some(sender)));
    forall i | 0 <= i < |b.nodes|
      ensures Answers(b, i, request) == []
      ensures HasHeard(Each(b, request).nodes[i], b.endpoints[i], configurationId, |b.nodes|, senders + {sender}, v)
      ensures Each(b, request).decisions[i]
              == if |senders + {sender}| >= FastQuorum(|b.nodes|) then Some(v) else None
    {
      HearsOne(b.nodes[i], b.endpoints[i], configurationId, |b.nodes|, senders, v, sender);
      DecisionOnly(b.endpoints, v, b.decisions[i]);
    }
    NoAnswers(b, 0, request);
  }

  lemma DecisionOnly(endpoints: seq<Endpoint>, v: Proposal, d: Option<Proposal>)
    ensures AllEnqueued(endpoints, [Decision(v)]) == [] && Recorded([Decision(v)], d) == Some(v)
    ensures AllEnqueued(endpoints, []) == [] && Recorded([], d) == d
  {
    assert [Decision(v)][1..] == [];
  }

  /** Of a new bus all instances decide `v` once a quorum of them proposed it, and none before. */
  lemma FastRoundDecides(endpoints: seq<Endpoint>, configurationId: int, nodeIndex: Endpoint -> int,
                         voters: seq<nat>, v: Proposal)
    requires Distinct(endpoints) && Distinct(voters) && Below(voters, |endpoints|)
    ensures var b := Proposed(InitBus(endpoints, configurationId, nodeIndex), voters, v);
            forall i :: 0 <= i < |endpoints| ==>
              b.decisions[i] == if |voters| >= |endpoints| - (|endpoints| - 1) / 4 then Some(v) else None
  {
    var b := Proposed(InitBus(endpoints, configurationId, nodeIndex), voters, v);
    ProposalsHeard(endpoints, configurationId, nodeIndex, voters, v);
    SendersCount(endpoints, voters);
    HeardDecides(b, configurationId, SendersOf(endpoints, voters), v);
  }

  lemma HeardDecides(b: Bus, configurationId: int, senders: set<Endpoint>, v: Proposal)
    requires AllHeard(b, configurationId, senders, v)
    ensures forall i :: 0 <= i < |b.nodes| ==>
              b.decisions[i] == if |senders| >= FastQuorum(|b.nodes|) then Some(v) else None
  {
    forall i | 0 <= i < |b.nodes|
      ensures b.decisions[i] == if |senders| >= FastQuorum(|b.nodes|) then Some(v) else None
    {
      assert HasHeard(b.nodes[i], b.endpoints[i], configurationId, |b.nodes|, senders, v);
    }
  }

  lemma {:induction false} SendersCount(endpoints: seq<Endpoint>, voters: seq<nat>)
    requires Distinct(endpoints) && Distinct(voters) && Below(voters, |endpoints|)
    ensures |SendersOf(endpoints, voters)| == |voters|
    decreases |voters|
  {
    if voters != [] {
      var front, last := voters[..|voters| - 1], voters[|voters| - 1];
      assert voters == front + [last];
      SendersLast(endpoints, front, last);
      SendersCount(endpoints, front);
    }
  }

  lemma {:induction false} ProposalsHeard(endpoints: seq<Endpoint>, configurationId: int, nodeIndex: Endpoint -> int,
                                          voters: seq<nat>, v: Proposal)
    requires Distinct(endpoints) && Distinct(voters) && Below(voters, |endpoints|)
    ensures var b := Proposed(InitBus(endpoints, configurationId, nodeIndex), voters, v);
            AllHeard(b, configurationId, SendersOf(endpoints, voters), v) && b.dropped == {}
    decreases |voters|
  {
    if voters == [] {
      NobodyHeard(endpoints, configurationId, nodeIndex, v);
      assert SendersOf(endpoints, voters) == {};
    } else {
      var front, last := voters[..|voters| - 1], voters[|voters| - 1];
      assert voters == front + [last];
      SendersLast(endpoints, front, last);
      ProposalsHeard(endpoints, configurationId, nodeIndex, front, v);
      OneProposal(Proposed(InitBus(endpoints, configurationId, nodeIndex), front, v), configurationId,
                  SendersOf(endpoints, front), last, v);
    }
  }

  lemma NobodyHeard(endpoints: seq<Endpoint>, configurationId: int, nodeIndex: Endpoint -> int, v: Proposal)
    ensures AllHeard(InitBus(endpoints, configurationId, nodeIndex), configurationId, {}, v)
  {
  }

  // ---------------------------------------------------------------- the classic round: promises

  /** An instance in configuration `c` that knows nothing of rank `r` and decided nothing; it may have
      voted for anything. */
  predicate Idle(s: FastState, me: Endpoint, c: int, n: nat, r: Rank) {
    && s.paxos.myAddr == me && s.paxos.configurationId == c && s.paxos.n == n
    && !s.decided && !s.paxos.decided && RankLess(s.paxos.rnd, r) && s.paxos.vrnd != r
    && Bucket(s.paxos, r) == map[]
  }

  /** The same after it promised `r`. */
  predicate Promised(s: FastState, me: Endpoint, c: int, n: nat, r: Rank) {
    && s.paxos.myAddr == me && s.paxos.configurationId == c && s.paxos.n == n
    && !s.decided && !s.paxos.decided && s.paxos.rnd == r && s.paxos.vrnd != r
    && Bucket(s.paxos, r) == map[]
  }

  predicate Coordinates(s: FastState, r: Rank, promises: seq<Phase1bMessage>, chosen: Proposal) {
    s.paxos.crnd == r && s.paxos.promises == promises && s.paxos.cval == chosen
  }

  function Prepare(c: int, from: Endpoint, r: Rank): Request { Phase1a(Phase1aMessage(c, Some(from), Some(r))) }

  function PromiseOf(s: FastState, c: int, r: Rank): Phase1bMessage {
    Phase1bMessage(c, Some(r), Some(s.paxos.myAddr), Some(s.paxos.vrnd), s.paxos.vval)
  }

  lemma Promises(s: FastState, me: Endpoint, c: int, n: nat, r: Rank, from: Endpoint)
    requires Idle(s, me, c, n, r)
    ensures var (s', outs) := HandleRequest(s, Prepare(c, from, r));
            && Promised(s', me, c, n, r) && s' == s.(paxos := s.paxos.(rnd := r))
            && outs == [Unicast(from, Phase1b(PromiseOf(s, c, r)))]
  {
  }

  /** All instances are idle with respect to the rank of `j`, which collects nothing yet. */
  ghost predicate AllIdle(b: Bus, c: int, j: nat, r: Rank) {
    && Shaped(b) && Distinct(b.endpoints) && j < |b.nodes|
    && forall i {:trigger b.nodes[i]} :: 0 <= i < |b.nodes| ==> Idle(b.nodes[i], b.endpoints[i], c, |b.nodes|, r)
  }

  ghost predicate AllPromised(b: Bus, c: int, j: nat, r: Rank) {
    && Shaped(b) && Distinct(b.endpoints) && j < |b.nodes|
    && forall i {:trigger b.nodes[i]} :: 0 <= i < |b.nodes| ==> Promised(b.nodes[i], b.endpoints[i], c, |b.nodes|, r)
  }

  function PromisesOf(b: Bus, c: int, r: Rank): seq<Phase1bMessage> {
    seq(|b.nodes|, i requires 0 <= i < |b.nodes| => PromiseOf(b.nodes[i], c, r))
  }

  /** Promises on their way to instance `j`. */
  function ToCoordinator(j: nat, promises: seq<Phase1bMessage>): seq<Pending> {
    seq(|promises|, i requires 0 <= i < |promises| => UnicastItem(j, Phase1b(promises[i])))
  }

  lemma AllPromise(b: Bus, c: int, j: nat, r: Rank)
    requires AllIdle(b, c, j, r)
    ensures var request := Prepare(c, b.endpoints[j], r);
            && AllPromised(Each(b, request), c, j, r)
            && EachAnswer(b, 0, request) == ToCoordinator(j, PromisesOf(b, c, r))
            && PromisesOf(Each(b, request), c, r) == PromisesOf(b, c, r)
            && Each(b, request).nodes[j] == b.nodes[j].(paxos := b.nodes[j].paxos.(rnd := r))
  {
    var request, items := Prepare(c, b.endpoints[j], r), ToCoordinator(j, PromisesOf(b, c, r));
    PositionIs(b.endpoints, j);
    forall i | 0 <= i < |b.nodes|
      ensures AnswersWith(b, i, request, items[i])
      ensures Promised(Each(b, request).nodes[i], b.endpoints[i], c, |b.nodes|, r)
      ensures PromiseOf(Each(b, request).nodes[i], c, r) == PromiseOf(b.nodes[i], c, r)
      ensures Each(b, request).nodes[i] == b.nodes[i].(paxos := b.nodes[i].paxos.(rnd := r))
    {
      Promises(b.nodes[i], b.endpoints[i], c, |b.nodes|, r, b.endpoints[j]);
      OneUnicast(b.endpoints, b.endpoints[j], j, Phase1b(PromiseOf(b.nodes[i], c, r)));
    }
    OneAnswerEach(b, 0, request, items);
    assert items[0..] == items;
  }

  lemma OneUnicast(endpoints: seq<Endpoint>, to: Endpoint, j: nat, request: Request)
    requires j < |endpoints| && to == endpoints[j] && Position(endpoints, to) == j
    ensures AllEnqueued(endpoints, [Unicast(to, request)]) == [UnicastItem(j, request)]
  {
    assert [Unicast(to, request)][1..] == [];
  }

  lemma OneBroadcast(endpoints: seq<Endpoint>, request: Request, d: Option<Proposal>)
    ensures AllEnqueued(endpoints, [Broadcast(request)]) == [BroadcastItem(request)]
    ensures Recorded([Broadcast(request)], d) == d
  {
    assert [Broadcast(request)][1..] == [];
  }

  // ---------------------------------------------------------------- the classic round: the order

  predicate Fits(m: Phase1bMessage, c: int, r: Rank) {
    m.configurationId == c && m.rnd == Some(r) && m.vrnd.Some?
  }

  predicate AllFit(promises: seq<Phase1bMessage>, c: int, r: Rank) {
    forall i :: 0 <= i < |promises| ==> Fits(promises[i], c, r)
  }

  /** What the coordinator has ordered after these promises: what the rule makes of the fewest, more than
      half, of which it makes anything. */
  function Choice(promises: seq<Phase1bMessage>, n: nat): Proposal {
    if |promises| <= n / 2 then []
    else
      var before := Choice(promises[..|promises| - 1], n);
      if before != [] then before else Select(promises, n)
  }

  /** Something is ordered once somebody who voted is among them, and then somebody's vote. */
  lemma {:induction false} ChoiceIsVote(promises: seq<Phase1bMessage>, n: nat, c: int, r: Rank)
    requires AllFit(promises, c, r)
    ensures Choice(promises, n) != [] ==> exists i :: 0 <= i < |promises| && promises[i].vval == Choice(promises, n)
    ensures |promises| > n / 2 && (exists i :: 0 <= i < |promises| && promises[i].vval != []) ==>
              Choice(promises, n) != []
    decreases |promises|
  {
    if |promises| > n / 2 {
      var front := promises[..|promises| - 1];
      ChoiceIsVote(front, n, c, r);
      SelectsReportedVote(promises, n);
      SelectsNothingIff(promises, n);
      assert promises[0].vrnd.Some?;
      if i :| 0 <= i < |front| && front[i].vval == Choice(front, n) {
        assert promises[i] == front[i];
      }
    }
  }

  function Order(c: int, from: Endpoint, r: Rank, chosen: Proposal): seq<Pending> {
    if chosen == [] then [] else [BroadcastItem(Phase2a(Phase2aMessage(c, Some(from), Some(r), chosen)))]
  }

  /** One promise more. The order goes out with the first of which the rule makes anything. */
  lemma Collects(s: FastState, endpoints: seq<Endpoint>, me: Endpoint, c: int, n: nat, r: Rank,
                 before: seq<Phase1bMessage>, m: Phase1bMessage, d: Option<Proposal>)
    requires Promised(s, me, c, n, r) && Coordinates(s, r, before, Choice(before, n)) && Fits(m, c, r)
    ensures var (s', outs) := HandleRequest(s, Phase1b(m)); var chosen := Choice(before + [m], n);
            && s' == s.(paxos := s.paxos.(promises := before + [m], cval := chosen))
            && Order(c, me, r, Choice(before, n)) + AllEnqueued(endpoints, outs) == Order(c, me, r, chosen)
            && Recorded(outs, d) == d
  {
    assert (before + [m])[..|before|] == before;
    OneBroadcast(endpoints, Phase2a(Phase2aMessage(c, Some(me), Some(r), Choice(before + [m], n))), d);
    NoChoice(before, n);
  }

  lemma NoChoice(promises: seq<Phase1bMessage>, n: nat)
    ensures |promises| <= n / 2 ==> Choice(promises, n) == []
  {
  }

  /** What the coordinator is once it has all promises. */
  function Collected(b: Bus, j: nat, promises: seq<Phase1bMessage>): Bus
    requires j < |b.nodes|
  {
    b.(nodes := b.nodes[j := b.nodes[j].(paxos := b.nodes[j].paxos.(promises := promises,
                                                                    cval := Choice(promises, |b.nodes|)))])
  }

  /** With the promises `before` in and `later` on the way, the coordinator comes to have all of them. */
  lemma {:induction false} Collecting(b: Bus, c: int, j: nat, r: Rank, before: seq<Phase1bMessage>,
                                      later: seq<Phase1bMessage>)
    requires AllPromised(b, c, j, r) && Phase1bKind !in b.dropped && AllFit(before + later, c, r)
    requires Coordinates(b.nodes[j], r, before, Choice(before, |b.nodes|))
    ensures var queue := ToCoordinator(j, later) + Order(c, b.endpoints[j], r, Choice(before, |b.nodes|));
            var b' := Collected(b, j, before + later);
            var order := Order(c, b.endpoints[j], r, Choice(before + later, |b.nodes|));
            && Queued(|b.nodes|, queue) && Queued(|b.nodes|, order) && Shaped(b')
            && Drained(b, queue) == Drained(b', order)
    decreases |later|
  {
    if later == [] {
      assert before + later == before && Collected(b, j, before).nodes == b.nodes;
      var order := Order(c, b.endpoints[j], r, Choice(before, |b.nodes|));
      assert ToCoordinator(j, later) + order == order;
    } else {
      var m, rest := later[0], later[1..];
      FitParts(before, m, rest, later, c, r);
      OneCollected(b, c, j, r, before, m);
      var b1 := Collected(b, j, before + [m]);
      CollectOne(b, b1, j, m, rest, Order(c, b.endpoints[j], r, Choice(before, |b.nodes|)),
                 Order(c, b.endpoints[j], r, Choice(before + [m], |b.nodes|)));
      Collecting(b1, c, j, r, before + [m], rest);
      assert Collected(b1, j, before + later) == Collected(b, j, before + later);
    }
  }

  lemma FitParts(before: seq<Phase1bMessage>, m: Phase1bMessage, rest: seq<Phase1bMessage>,
                 later: seq<Phase1bMessage>, c: int, r: Rank)
    requires later == [m] + rest && AllFit(before + later, c, r)
    ensures (before + [m]) + rest == before + later && AllFit(before + [m], c, r)
  {
    assert forall i :: 0 <= i < |before + [m]| ==> (before + [m])[i] == (before + later)[i];
  }

  /** The first of the promises is delivered. */
  lemma CollectOne(b: Bus, b1: Bus, j: nat, m: Phase1bMessage, later: seq<Phase1bMessage>, order: seq<Pending>,
                   order': seq<Pending>)
    requires Shaped(b) && j < |b.nodes| && Phase1bKind !in b.dropped && Queued(|b.nodes|, order)
    requires Handled(b, j, Phase1b(m)) == b1 && order + Answers(b, j, Phase1b(m)) == order'
    ensures var queue, rest := ToCoordinator(j, [m] + later) + order, ToCoordinator(j, later) + order';
            Queued(|b.nodes|, queue) && Shaped(b1) && |b1.nodes| == |b.nodes| && Queued(|b.nodes|, rest)
            && Drained(b, queue) == Drained(b1, rest)
  {
    var item, rest := UnicastItem(j, Phase1b(m)), ToCoordinator(j, later) + order;
    QueueParts(j, m, later, order, Answers(b, j, Phase1b(m)));
    DrainStep(b, item, rest);
  }

  lemma QueueParts(j: nat, m: Phase1bMessage, later: seq<Phase1bMessage>, order: seq<Pending>, more: seq<Pending>)
    ensures ToCoordinator(j, [m] + later) + order == [UnicastItem(j, Phase1b(m))] + (ToCoordinator(j, later) + order)
    ensures (ToCoordinator(j, later) + order) + more == ToCoordinator(j, later) + (order + more)
  {
  }

  lemma OneCollected(b: Bus, c: int, j: nat, r: Rank, before: seq<Phase1bMessage>, m: Phase1bMessage)
    requires AllPromised(b, c, j, r)
    requires AllFit(before + [m], c, r)
    requires Coordinates(b.nodes[j], r, before, Choice(before, |b.nodes|))
    ensures var b1 := Collected(b, j, before + [m]);
            && Handled(b, j, Phase1b(m)) == b1 && AllPromised(b1, c, j, r)
            && Order(c, b.endpoints[j], r, Choice(before, |b.nodes|)) + Answers(b, j, Phase1b(m))
               == Order(c, b.endpoints[j], r, Choice(before + [m], |b.nodes|))
  {
    assert Fits((before + [m])[|before|], c, r);
    Collects(b.nodes[j], b.endpoints, b.endpoints[j], c, |b.nodes|, r, before, m, b.decisions[j]);
    assert Handled(b, j, Phase1b(m)).decisions == b.decisions;
  }

  // ---------------------------------------------------------------- the classic round: acceptance, decision

  /** Acceptances of `v` from the first `k` endpoints are in; the instance has decided if they are a majority. */
  predicate Learned(s: FastState, me: Endpoint, c: int, endpoints: seq<Endpoint>, r: Rank, k: nat)
    requires k <= |endpoints|
  {
    && s.paxos.myAddr == me && s.paxos.configurationId == c && s.paxos.n == |endpoints|
    && (s.decided <==> k > |endpoints| / 2) && (s.paxos.decided <==> s.decided)
    && (!s.decided ==> Bucket(s.paxos, r).Keys == First(endpoints, k))
  }

  function First(endpoints: seq<Endpoint>, k: nat): set<Endpoint>
    requires k <= |endpoints|
  {
    set i | 0 <= i < k :: endpoints[i]
  }

  lemma FirstNext(endpoints: seq<Endpoint>, k: nat)
    requires Distinct(endpoints) && k < |endpoints|
    ensures First(endpoints, k + 1) == First(endpoints, k) + {endpoints[k]} && endpoints[k] !in First(endpoints, k)
  {
    assert forall i :: 0 <= i < k ==> endpoints[i] != endpoints[k];
    forall e | e in First(endpoints, k + 1) ensures e in First(endpoints, k) + {endpoints[k]} {
      var i :| 0 <= i < k + 1 && endpoints[i] == e;
    }
  }

  lemma {:induction false} FirstSize(endpoints: seq<Endpoint>, k: nat)
    requires Distinct(endpoints) && k <= |endpoints|
    ensures |First(endpoints, k)| == k
  {
    if k > 0 {
      FirstSize(endpoints, k - 1);
      FirstNext(endpoints, k - 1);
    }
  }

  function Acceptance(c: int, from: Endpoint, r: Rank, v: Proposal): Request {
    Phase2b(Phase2bMessage(c, Some(r), Some(from), v))
  }

  lemma Accepts(s: FastState, me: Endpoint, c: int, endpoints: seq<Endpoint>, r: Rank, v: Proposal, from: Endpoint)
    requires Promised(s, me, c, |endpoints|, r)
    ensures var (s', outs) := HandleRequest(s, Phase2a(Phase2aMessage(c, Some(from), Some(r), v)));
            && Learned(s', me, c, endpoints, r, 0) && outs == [Broadcast(Acceptance(c, me, r, v))]
  {
    assert First(endpoints, 0) == {};
  }

  /** All have heard the first `k` acceptances; those for which they are a majority recorded `v`. */
  ghost predicate AllLearned(b: Bus, c: int, r: Rank, v: Proposal, k: nat) {
    && Shaped(b) && Distinct(b.endpoints) && k <= |b.nodes|
    && forall i {:trigger b.nodes[i]} :: 0 <= i < |b.nodes| ==>
         && Learned(b.nodes[i], b.endpoints[i], c, b.endpoints, r, k)
         && (k > |b.nodes| / 2 ==> b.decisions[i] == Some(v))
  }

  function Acceptances(endpoints: seq<Endpoint>, c: int, r: Rank, v: Proposal): seq<Pending> {
    seq(|endpoints|, i requires 0 <= i < |endpoints| => BroadcastItem(Acceptance(c, endpoints[i], r, v)))
  }

  lemma AllAccept(b: Bus, c: int, j: nat, r: Rank, v: Proposal)
    requires AllPromised(b, c, j, r)
    ensures var request := Phase2a(Phase2aMessage(c, Some(b.endpoints[j]), Some(r), v));
            && AllLearned(Each(b, request), c, r, v, 0)
            && EachAnswer(b, 0, request) == Acceptances(b.endpoints, c, r, v)
  {
    var request := Phase2a(Phase2aMessage(c, Some(b.endpoints[j]), Some(r), v));
    var items := Acceptances(b.endpoints, c, r, v);
    forall i | 0 <= i < |b.nodes|
      ensures AnswersWith(b, i, request, items[i])
      ensures Learned(Each(b, request).nodes[i], b.endpoints[i], c, b.endpoints, r, 0)
    {
      Accepts(b.nodes[i], b.endpoints[i], c, b.endpoints, r, v, b.endpoints[j]);
      OneBroadcast(b.endpoints, Acceptance(c, b.endpoints[i], r, v), b.decisions[i]);
    }
    OneAnswerEach(b, 0, request, items);
    assert items[0..] == items;
  }

  /** One acceptance more. */
  lemma Learns(s: FastState, me: Endpoint, c: int, endpoints: seq<Endpoint>, r: Rank, v: Proposal, k: nat)
    requires Distinct(endpoints) && k < |endpoints| && Learned(s, me, c, endpoints, r, k)
    ensures var (s', outs) := HandleRequest(s, Acceptance(c, endpoints[k], r, v));
            && Learned(s', me, c, endpoints, r, k + 1)
            && outs == if s'.decided && !s.decided then [Decision(v)] else []
  {
    if !s.decided {
      var m := Phase2bMessage(c, Some(r), Some(endpoints[k]), v);
      BucketGrows(Bucket(s.paxos, r), endpoints, k, m);
    }
  }

  lemma BucketGrows(bucket: map<Endpoint, Phase2bMessage>, endpoints: seq<Endpoint>, k: nat, m: Phase2bMessage)
    requires Distinct(endpoints) && k < |endpoints| && bucket.Keys == First(endpoints, k)
    ensures bucket[endpoints[k] := m].Keys == First(endpoints, k + 1) && |bucket[endpoints[k] := m]| == k + 1
  {
    FirstSize(endpoints, k + 1);
    FirstNext(endpoints, k);
    NewKey(bucket, endpoints[k], m);
  }

  lemma NewKey(bucket: map<Endpoint, Phase2bMessage>, e: Endpoint, m: Phase2bMessage)
    ensures bucket[e := m].Keys == bucket.Keys + {e} && |bucket[e := m]| == |bucket[e := m].Keys|
  {
  }

  lemma AllLearn(b: Bus, c: int, r: Rank, v: Proposal, k: nat)
    requires AllLearned(b, c, r, v, k) && k < |b.nodes|
    ensures var request := Acceptance(c, b.endpoints[k], r, v);
            AllLearned(Each(b, request), c, r, v, k + 1) && EachAnswer(b, 0, request) == []
  {
    var request := Acceptance(c, b.endpoints[k], r, v);
    forall i | 0 <= i < |b.nodes|
      ensures Answers(b, i, request) == []
      ensures Learned(Each(b, request).nodes[i], b.endpoints[i], c, b.endpoints, r, k + 1)
      ensures k + 1 > |b.nodes| / 2 ==> Each(b, request).decisions[i] == Some(v)
    {
      Learns(b.nodes[i], b.endpoints[i], c, b.endpoints, r, v, k);
      DecisionOnly(b.endpoints, v, b.decisions[i]);
    }
    NoAnswers(b, 0, request);
  }

  lemma {:induction false} Learning(b: Bus, c: int, r: Rank, v: Proposal, k: nat)
    requires AllLearned(b, c, r, v, k) && Phase2bKind !in b.dropped
    ensures var queue := Acceptances(b.endpoints, c, r, v)[k..];
            && Queued(|b.nodes|, queue) && |Drained(b, queue).nodes| == |b.nodes|
            && AllLearned(Drained(b, queue), c, r, v, |b.nodes|)
    decreases |b.nodes| - k
  {
    var all := Acceptances(b.endpoints, c, r, v);
    if k == |b.nodes| {
      assert all[k..] == [];
    } else {
      LearnNext(b, c, r, v, k);
      Learning(Each(b, Acceptance(c, b.endpoints[k], r, v)), c, r, v, k + 1);
    }
  }

  lemma LearnNext(b: Bus, c: int, r: Rank, v: Proposal, k: nat)
    requires AllLearned(b, c, r, v, k) && Phase2bKind !in b.dropped && k < |b.nodes|
    ensures var (b1, all) := (Each(b, Acceptance(c, b.endpoints[k], r, v)), Acceptances(b.endpoints, c, r, v));
            && AllLearned(b1, c, r, v, k + 1) && Queued(|b.nodes|, all[k..]) && Queued(|b.nodes|, all[k + 1..])
            && Drained(b, all[k..]) == Drained(b1, all[k + 1..])
  {
    var all, request := Acceptances(b.endpoints, c, r, v), Acceptance(c, b.endpoints[k], r, v);
    assert all[k..] == [BroadcastItem(request)] + all[k + 1..];
    AllLearn(b, c, r, v, k);
    DrainBroadcast(b, request, all[k + 1..]);
    assert all[k + 1..] + [] == all[k + 1..];
  }

  lemma AllDecided(b: Bus, c: int, r: Rank, v: Proposal)
    requires AllLearned(b, c, r, v, |b.nodes|)
    ensures forall i :: 0 <= i < |b.nodes| ==> b.decisions[i] == Some(v) && b.nodes[i].decided
  {
    forall i | 0 <= i < |b.nodes| ensures b.decisions[i] == Some(v) && b.nodes[i].decided {
      assert Learned(b.nodes[i], b.endpoints[i], c, b.endpoints, r, |b.nodes|);
    }
  }

  // ---------------------------------------------------------------- the classic round: all of it

  /** The kinds of the classic round are delivered. */
  predicate Delivers(b: Bus) {
    Phase1aKind !in b.dropped && Phase1bKind !in b.dropped && Phase2aKind !in b.dropped && Phase2bKind !in b.dropped
  }

  /** A classic round started at an instance that coordinated none, among instances that voted in any way,
      one of them at least: all of them come to decide, on one value, and it is one that was voted for. */
  lemma ClassicRoundDecides(b: Bus, c: int, j: nat, voter: nat) returns (v: Proposal)
    requires j < |b.indices| && AllIdle(b, c, j, Rank(2, b.indices[j])) && Delivers(b)
    requires b.nodes[j].paxos.crnd.round <= 2 && !b.nodes[j].classicStarted
    requires b.nodes[j].paxos.promises == [] && b.nodes[j].paxos.cval == []
    requires voter < |b.nodes| && b.nodes[voter].paxos.vval != []
    ensures var b' := Perform(b, StartOp(j));
            |b'.nodes| == |b'.decisions| == |b.nodes|
            && forall i :: 0 <= i < |b.nodes| ==> b'.decisions[i] == Some(v) && b'.nodes[i].decided
    ensures v != [] && exists i :: 0 <= i < |b.nodes| && b.nodes[i].paxos.vval == v
  {
    var r := Rank(2, b.indices[j]);
    var (s, outs) := StartClassicRound(b.nodes[j], b.indices[j]);
    var b1 := Moved(b, j, s, outs);
    Kicked(b, c, j);
    v := Choice(PromisesOf(b1, c, r), |b.nodes|);
    PromisesFit(b1, c, j, r, voter);
    PrepareDecides(b1, c, j, r, v);
    AllDecided(Perform(b, StartOp(j)), c, r, v);
  }

  /** The start of the round queues the prepare. */
  lemma Kicked(b: Bus, c: int, j: nat)
    requires j < |b.indices| && AllIdle(b, c, j, Rank(2, b.indices[j]))
    requires b.nodes[j].paxos.crnd.round <= 2 && !b.nodes[j].classicStarted
    requires b.nodes[j].paxos.promises == [] && b.nodes[j].paxos.cval == []
    ensures var (s, outs) := StartClassicRound(b.nodes[j], b.indices[j]);
            var (r, b1) := (Rank(2, b.indices[j]), Moved(b, j, s, outs));
            && AllIdle(b1, c, j, r) && Coordinates(b1.nodes[j], r, [], [])
            && AllEnqueued(b.endpoints, outs) == [BroadcastItem(Prepare(c, b.endpoints[j], r))]
            && forall i :: 0 <= i < |b.nodes| ==> b1.nodes[i].paxos.vval == b.nodes[i].paxos.vval
  {
    var r := Rank(2, b.indices[j]);
    OneBroadcast(b.endpoints, Prepare(c, b.endpoints[j], r), b.decisions[j]);
    assert StartClassicRound(b.nodes[j], b.indices[j]).1 == [Broadcast(Prepare(c, b.endpoints[j], r))];
  }

  lemma PrepareDecides(b: Bus, c: int, j: nat, r: Rank, v: Proposal)
    requires AllIdle(b, c, j, r) && Delivers(b) && Coordinates(b.nodes[j], r, [], [])
    requires v == Choice(PromisesOf(b, c, r), |b.nodes|) != [] && AllFit(PromisesOf(b, c, r), c, r)
    ensures var queue := [BroadcastItem(Prepare(c, b.endpoints[j], r))];
            Queued(|b.nodes|, queue) && AllLearned(Drained(b, queue), c, r, v, |b.nodes|)
            && |Drained(b, queue).nodes| == |b.nodes|
  {
    var request, promises := Prepare(c, b.endpoints[j], r), PromisesOf(b, c, r);
    AllPromise(b, c, j, r);
    DrainAlone(b, request);
    PromisesDecide(Each(b, request), c, j, r, v, promises);
  }

  lemma PromisesFit(b: Bus, c: int, j: nat, r: Rank, voter: nat)
    requires AllIdle(b, c, j, r) && voter < |b.nodes| && b.nodes[voter].paxos.vval != []
    ensures AllFit(PromisesOf(b, c, r), c, r) && Choice(PromisesOf(b, c, r), |b.nodes|) != []
    ensures exists i :: 0 <= i < |b.nodes| && b.nodes[i].paxos.vval == Choice(PromisesOf(b, c, r), |b.nodes|)
  {
    var promises := PromisesOf(b, c, r);
    assert promises[voter].vval != [];
    ChoiceIsVote(promises, |b.nodes|, c, r);
    var i :| 0 <= i < |promises| && promises[i].vval == Choice(promises, |b.nodes|);
    assert b.nodes[i].paxos.vval == Choice(promises, |b.nodes|);
  }

  lemma PromisesDecide(b: Bus, c: int, j: nat, r: Rank, v: Proposal, promises: seq<Phase1bMessage>)
    requires AllPromised(b, c, j, r) && Delivers(b) && Coordinates(b.nodes[j], r, [], [])
    requires AllFit(promises, c, r) && v == Choice(promises, |b.nodes|) != []
    ensures Queued(|b.nodes|, ToCoordinator(j, promises))
    ensures var b' := Drained(b, ToCoordinator(j, promises));
            AllLearned(b', c, r, v, |b.nodes|) && |b'.nodes| == |b.nodes|
  {
    var b' := Collected(b, j, promises);
    assert [] + promises == promises && Choice([], |b.nodes|) == [];
    assert ToCoordinator(j, promises) + [] == ToCoordinator(j, promises);
    Collecting(b, c, j, r, [], promises);
    assert AllPromised(b', c, j, r);
    OrderDecides(b', c, j, r, v);
  }

  lemma OrderDecides(b: Bus, c: int, j: nat, r: Rank, v: Proposal)
    requires AllPromised(b, c, j, r) && Delivers(b) && v != []
    ensures var queue := Order(c, b.endpoints[j], r, v);
            Queued(|b.nodes|, queue) && AllLearned(Drained(b, queue), c, r, v, |b.nodes|)
            && |Drained(b, queue).nodes| == |b.nodes|
  {
    var request := Phase2a(Phase2aMessage(c, Some(b.endpoints[j]), Some(r), v));
    var all := Acceptances(b.endpoints, c, r, v);
    AllAccept(b, c, j, r, v);
    DrainAlone(b, request);
    assert all[0..] == all;
    Learning(Each(b, request), c, r, v, 0);
  }

  // ---------------------------------------------------------------- from a new bus

  datatype Ballot = Ballot(at: nat, value: Proposal)

  predicate Ballots(ballots: seq<Ballot>, n: nat) {
    forall k :: 0 <= k < |ballots| ==> ballots[k].at < n && ballots[k].value != []
  }

  /** The bus after these proposals, one after another. */
  function Balloted(b: Bus, ballots: seq<Ballot>): (b': Bus)
    requires Shaped(b) && Ballots(ballots, |b.nodes|)
    ensures Shaped(b') && b'.endpoints == b.endpoints && b'.indices == b.indices
    decreases |ballots|
  {
    if ballots == [] then b
    else
      var before, last := Balloted(b, ballots[..|ballots| - 1]), ballots[|ballots| - 1];
      PerformKeepsShape(before, ProposeOp(last.at, last.value));
      Perform(before, ProposeOp(last.at, last.value))
  }

  /** Nobody voted here, or the last vote is that of one of the ballots. */
  ghost predicate VotedAmong(p: PaxosState, me: Endpoint, c: int, n: nat, ballots: seq<Ballot>) {
    || p == InitPaxos(me, c, n)
    || exists k :: 0 <= k < |ballots| && p == RegisterFastRoundVote(InitPaxos(me, c, n), ballots[k].value)
  }

  /** What every instance knows of the fast round. */
  datatype Tally = Tally(received: set<Endpoint>, counts: map<Proposal, nat>, decision: Option<Proposal>)

  ghost predicate Knows(s: FastState, d: Option<Proposal>, me: Endpoint, c: int, n: nat, t: Tally,
                        ballots: seq<Ballot>) {
    && s.myAddr == me && s.configurationId == c && s.membershipSize == n && !s.classicStarted
    && s.votesReceived == t.received && s.votesPerProposal == t.counts && d == t.decision
    && (s.decided <==> d.Some?) && VotedAmong(s.paxos, me, c, n, ballots)
  }

  /** All instances know the same, and what is decided, if anything, was on a ballot. */
  ghost predicate Alike(b: Bus, c: int, t: Tally, ballots: seq<Ballot>) {
    && Shaped(b) && Distinct(b.endpoints)
    && (t.decision.Some? ==> exists k :: 0 <= k < |ballots| && ballots[k].value == t.decision.value)
    && forall i {:trigger b.nodes[i]} :: 0 <= i < |b.nodes| ==>
         Knows(b.nodes[i], b.decisions[i], b.endpoints[i], c, |b.nodes|, t, ballots)
  }

  /** The tally after a vote. */
  function Counted(t: Tally, n: nat, sender: Endpoint, v: Proposal): Tally {
    if t.decision.Some? || sender in t.received then t
    else
      var count := (if v in t.counts then t.counts[v] else 0) + 1;
      var received := t.received + {sender};
      Tally(received, t.counts[v := count],
            if |received| >= FastQuorum(n) && count >= FastQuorum(n) then Some(v) else None)
  }

  lemma VoteCounts(s: FastState, d: Option<Proposal>, me: Endpoint, c: int, n: nat, t: Tally, ballots: seq<Ballot>,
                   sender: Endpoint, v: Proposal)
    requires Knows(s, d, me, c, n, t, ballots)
    ensures var (s', outs) := OnFastVote(s, FastRoundPhase2bMessage(c, v, Some(sender)));
            && Knows(s', Recorded(outs, d), me, c, n, Counted(t, n, sender, v), ballots)
            && outs == if Counted(t, n, sender, v).decision != t.decision then [Decision(v)] else []
  {
    assert [Decision(v)][1..] == [];
  }

  lemma AllCount(b: Bus, c: int, t: Tally, ballots: seq<Ballot>, sender: Endpoint, k: nat)
    requires Alike(b, c, t, ballots) && k < |ballots|
    ensures var request := FastVote(FastRoundPhase2bMessage(c, ballots[k].value, Some(sender)));
            && Alike(Each(b, request), c, Counted(t, |b.nodes|, sender, ballots[k].value), ballots)
            && EachAnswer(b, 0, request) == []
  {
    var v := ballots[k].value;
    var request := FastVote(FastRoundPhase2bMessage(c, v, Some(sender)));
    forall i | 0 <= i < |b.nodes|
      ensures Answers(b, i, request) == []
      ensures Knows(Each(b, request).nodes[i], Each(b, request).decisions[i], b.endpoints[i], c, |b.nodes|,
                    Counted(t, |b.nodes|, sender, v), ballots)
    {
      VoteCounts(b.nodes[i], b.decisions[i], b.endpoints[i], c, |b.nodes|, t, ballots, sender, v);
      DecisionOnly(b.endpoints, v, b.decisions[i]);
    }
    NoAnswers(b, 0, request);
  }

  /** The proposer's own vote. */
  lemma OneVoted(b: Bus, c: int, t: Tally, ballots: seq<Ballot>, last: Ballot)
    requires Alike(b, c, t, ballots) && last.at < |b.nodes|
    ensures Alike(Registered(b, last.at, last.value), c, t, ballots + [last])
  {
    var all, x := ballots + [last], last.at;
    var b1 := Registered(b, x, last.value);
    ProposalDrains(b, x, last.value);
    assert all[|ballots|] == last && forall k :: 0 <= k < |ballots| ==> all[k] == ballots[k];
    forall i | 0 <= i < |b.nodes|
      ensures Knows(b1.nodes[i], b1.decisions[i], b.endpoints[i], c, |b.nodes|, t, all)
    {
      assert Knows(b.nodes[i], b.decisions[i], b.endpoints[i], c, |b.nodes|, t, ballots);
      StillAmong(b.nodes[i].paxos, b.endpoints[i], c, |b.nodes|, ballots, last);
    }
  }

  lemma StillAmong(p: PaxosState, me: Endpoint, c: int, n: nat, ballots: seq<Ballot>, last: Ballot)
    requires VotedAmong(p, me, c, n, ballots)
    ensures VotedAmong(p, me, c, n, ballots + [last])
    ensures VotedAmong(RegisterFastRoundVote(p, last.value), me, c, n, ballots + [last])
  {
    var all := ballots + [last];
    assert all[|ballots|] == last;
    if p != InitPaxos(me, c, n) {
      var k :| 0 <= k < |ballots| && p == RegisterFastRoundVote(InitPaxos(me, c, n), ballots[k].value);
      assert all[k] == ballots[k];
    }
    assert RegisterFastRoundVote(p, last.value) == RegisterFastRoundVote(InitPaxos(me, c, n), all[|ballots|].value);
  }

  lemma DroppedBallot(b: Bus, c: int, t: Tally, ballots: seq<Ballot>, last: Ballot)
    requires Alike(b, c, t, ballots) && last.at < |b.nodes| && FastRoundKind in b.dropped
    ensures Perform(b, ProposeOp(last.at, last.value)) == Registered(b, last.at, last.value)
  {
    var m := FastRoundPhase2bMessage(b.nodes[last.at].configurationId, last.value, Some(b.nodes[last.at].myAddr));
    ProposalDrains(b, last.at, last.value);
    DropAlone(Registered(b, last.at, last.value), FastVote(m));
  }

  lemma DeliveredBallot(b: Bus, c: int, t: Tally, ballots: seq<Ballot>, last: Ballot)
    requires Alike(b, c, t, ballots) && last.at < |b.nodes| && FastRoundKind !in b.dropped
    requires Alike(Registered(b, last.at, last.value), c, t, ballots + [last])
    ensures var request := FastVote(FastRoundPhase2bMessage(c, last.value, Some(b.endpoints[last.at])));
            && Perform(b, ProposeOp(last.at, last.value)) == Each(Registered(b, last.at, last.value), request)
            && Alike(Each(Registered(b, last.at, last.value), request), c,
                     Counted(t, |b.nodes|, b.endpoints[last.at], last.value), ballots + [last])
  {
    var request := FastVote(FastRoundPhase2bMessage(c, last.value, Some(b.endpoints[last.at])));
    var b1, all := Registered(b, last.at, last.value), ballots + [last];
    assert Knows(b.nodes[last.at], b.decisions[last.at], b.endpoints[last.at], c, |b.nodes|, t, ballots);
    assert all[|ballots|] == last;
    ProposalDrains(b, last.at, last.value);
    AllCount(b1, c, t, all, b.endpoints[last.at], |ballots|);
    DrainAlone(b1, request);
  }

  /** A vote that is heard leaves what the hearers voted for themselves. */
  lemma HeardOnly(b: Bus, m: FastRoundPhase2bMessage, i: nat)
    requires Shaped(b) && i < |b.nodes|
    ensures Each(b, FastVote(m)).nodes[i].paxos == b.nodes[i].paxos
  {
  }

  /** A proposal leaves all instances alike, whether the votes of the fast round are dropped or not. */
  lemma BallotKeeps(b: Bus, c: int, t: Tally, ballots: seq<Ballot>, last: Ballot) returns (t': Tally)
    requires Alike(b, c, t, ballots) && last.at < |b.nodes|
    ensures var b' := Perform(b, ProposeOp(last.at, last.value));
            && Alike(b', c, t', ballots + [last]) && b'.dropped == b.dropped && |b'.nodes| == |b.nodes|
            && b'.nodes[last.at].paxos == RegisterFastRoundVote(b.nodes[last.at].paxos, last.value)
    ensures FastRoundKind in b.dropped ==> t' == t
  {
    OneVoted(b, c, t, ballots, last);
    if FastRoundKind in b.dropped {
      t' := t;
      DroppedBallot(b, c, t, ballots, last);
    } else {
      t' := Counted(t, |b.nodes|, b.endpoints[last.at], last.value);
      DeliveredBallot(b, c, t, ballots, last);
      HeardOnly(Registered(b, last.at, last.value),
                FastRoundPhase2bMessage(c, last.value, Some(b.endpoints[last.at])), last.at);
    }
  }

  /** From `b0`, where nothing was voted for, the ballots led to `b`. */
  ghost predicate Kept(b0: Bus, b: Bus, c: int, t0: Tally, t: Tally, ballots: seq<Ballot>) {
    && Alike(b, c, t, ballots) && b.dropped == b0.dropped && |b.nodes| == |b0.nodes|
    && (FastRoundKind in b0.dropped ==> t == t0) && (ballots != [] ==> SomebodyVoted(b))
  }

  lemma {:induction false} BallotsKeep(b: Bus, c: int, ballots: seq<Ballot>, t: Tally) returns (t': Tally)
    requires Alike(b, c, t, []) && Ballots(ballots, |b.nodes|)
    ensures Kept(b, Balloted(b, ballots), c, t, t', ballots)
    decreases |ballots|
  {
    t' := t;
    if ballots != [] {
      var front, last := ballots[..|ballots| - 1], ballots[|ballots| - 1];
      t' := BallotsKeep(b, c, front, t);
      assert ballots == front + [last];
      t' := BallotNext(b, Balloted(b, front), c, t, t', front, last);
    }
  }

  lemma BallotNext(b0: Bus, b: Bus, c: int, t0: Tally, t: Tally, front: seq<Ballot>, last: Ballot)
    returns (t': Tally)
    requires Kept(b0, b, c, t0, t, front) && last.at < |b.nodes| && last.value != []
    ensures Kept(b0, Perform(b, ProposeOp(last.at, last.value)), c, t0, t', front + [last])
  {
    t' := BallotKeeps(b, c, t, front, last);
    LastVoted(b, c, t, front, last, Perform(b, ProposeOp(last.at, last.value)));
  }

  ghost predicate SomebodyVoted(b: Bus) { exists i :: 0 <= i < |b.nodes| && b.nodes[i].paxos.vval != [] }

  lemma LastVoted(b: Bus, c: int, t: Tally, ballots: seq<Ballot>, last: Ballot, b': Bus)
    requires Alike(b, c, t, ballots) && last.at < |b.nodes| == |b'.nodes| && last.value != []
    requires b'.nodes[last.at].paxos == RegisterFastRoundVote(b.nodes[last.at].paxos, last.value)
    ensures SomebodyVoted(b')
  {
    var x := last.at;
    assert Knows(b.nodes[x], b.decisions[x], b.endpoints[x], c, |b.nodes|, t, ballots);
    assert b'.nodes[x].paxos.vval == last.value;
  }

  lemma NewAlike(b: Bus, endpoints: seq<Endpoint>, c: int, nodeIndex: Endpoint -> int)
    requires Distinct(endpoints) && b == InitBus(endpoints, c, nodeIndex).(dropped := b.dropped)
    ensures Alike(b, c, Tally({}, map[], None), [])
  {
  }

  /** Votes of the fast round that are dropped are not heard. */
  lemma DroppedVotesDecideNothing(endpoints: seq<Endpoint>, c: int, nodeIndex: Endpoint -> int, ballots: seq<Ballot>)
    requires Distinct(endpoints) && Ballots(ballots, |endpoints|)
    ensures var b := Balloted(Perform(InitBus(endpoints, c, nodeIndex), DropOp(FastRoundKind)), ballots);
            forall i :: 0 <= i < |endpoints| ==> b.decisions[i] == None
  {
    var b0 := Perform(InitBus(endpoints, c, nodeIndex), DropOp(FastRoundKind));
    NewAlike(b0, endpoints, c, nodeIndex);
    var t := BallotsKeep(b0, c, ballots, Tally({}, map[], None));
    forall i | 0 <= i < |endpoints| ensures Balloted(b0, ballots).decisions[i] == None {
      assert Knows(Balloted(b0, ballots).nodes[i], Balloted(b0, ballots).decisions[i], endpoints[i], c, |endpoints|, t,
                   ballots);
    }
  }

  /** On a new bus, with or without the votes of the fast round delivered, and whatever was proposed: once a
      classic round is started at any instance all have decided, on one value, and it was proposed. */
  lemma RecoveryDecides(endpoints: seq<Endpoint>, c: int, nodeIndex: Endpoint -> int, drop: bool,
                        ballots: seq<Ballot>, j: nat)
    returns (w: Proposal)
    requires Distinct(endpoints) && Ballots(ballots, |endpoints|) && ballots != [] && j < |endpoints|
    ensures var b0 := InitBus(endpoints, c, nodeIndex);
            var b := Balloted(if drop then Perform(b0, DropOp(FastRoundKind)) else b0, ballots);
            |Perform(b, StartOp(j)).decisions| == |endpoints|
            && forall i :: 0 <= i < |endpoints| ==> Perform(b, StartOp(j)).decisions[i] == Some(w)
    ensures exists k :: 0 <= k < |ballots| && ballots[k].value == w
  {
    var b0 := InitBus(endpoints, c, nodeIndex);
    var b1 := if drop then Perform(b0, DropOp(FastRoundKind)) else b0;
    NewAlike(b1, endpoints, c, nodeIndex);
    var t := BallotsKeep(b1, c, ballots, Tally({}, map[], None));
    w := AlikeRecovers(Balloted(b1, ballots), c, t, ballots, j);
  }

  lemma AlikeRecovers(b: Bus, c: int, t: Tally, ballots: seq<Ballot>, j: nat) returns (w: Proposal)
    requires Alike(b, c, t, ballots) && Ballots(ballots, |b.nodes|) && j < |b.nodes| && Delivers(b)
    requires SomebodyVoted(b)
    ensures var b' := Perform(b, StartOp(j));
            |b'.decisions| == |b.nodes| && forall i :: 0 <= i < |b.nodes| ==> b'.decisions[i] == Some(w)
    ensures exists k :: 0 <= k < |ballots| && ballots[k].value == w
  {
    if t.decision.Some? {
      w := t.decision.value;
      StartRefused(b, c, t, ballots, j);
    } else {
      var voter :| 0 <= voter < |b.nodes| && b.nodes[voter].paxos.vval != [];
      AlikeAreIdle(b, c, t, ballots, j);
      w := ClassicRoundDecides(b, c, j, voter);
      var i :| 0 <= i < |b.nodes| && b.nodes[i].paxos.vval == w;
      assert VotedAmong(b.nodes[i].paxos, b.endpoints[i], c, |b.nodes|, ballots);
    }
  }

  /** After a decision the start of a classic round does nothing. */
  lemma StartRefused(b: Bus, c: int, t: Tally, ballots: seq<Ballot>, j: nat)
    requires Alike(b, c, t, ballots) && t.decision.Some? && j < |b.nodes|
    ensures Perform(b, StartOp(j)) == b && forall i :: 0 <= i < |b.nodes| ==> b.decisions[i] == t.decision
  {
    forall i | 0 <= i < |b.nodes| ensures b.decisions[i] == t.decision && b.nodes[i].decided {
      assert Knows(b.nodes[i], b.decisions[i], b.endpoints[i], c, |b.nodes|, t, ballots);
    }
    assert StartClassicRound(b.nodes[j], b.indices[j]) == (b.nodes[j], []);
    assert Moved(b, j, b.nodes[j], []) == b;
  }

  lemma AlikeAreIdle(b: Bus, c: int, t: Tally, ballots: seq<Ballot>, j: nat)
    requires Alike(b, c, t, ballots) && t.decision.None? && j < |b.nodes|
    ensures AllIdle(b, c, j, Rank(2, b.indices[j])) && !b.nodes[j].classicStarted
    ensures b.nodes[j].paxos.crnd.round <= 2 && b.nodes[j].paxos.promises == [] && b.nodes[j].paxos.cval == []
  {
    var r := Rank(2, b.indices[j]);
    forall i | 0 <= i < |b.nodes|
      ensures Idle(b.nodes[i], b.endpoints[i], c, |b.nodes|, r) && !b.nodes[i].classicStarted
      ensures b.nodes[i].paxos.crnd.round <= 2 && b.nodes[i].paxos.promises == [] && b.nodes[i].paxos.cval == []
    {
      assert Knows(b.nodes[i], b.decisions[i], b.endpoints[i], c, |b.nodes|, t, ballots);
    }
  }
}
