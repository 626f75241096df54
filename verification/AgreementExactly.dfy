/** Agreement holds for every run exactly when the environment is safe. */
module AgreementExactly {
  import opened Types
  import opened SetFacts
  import opened CoordinatorRule
  import opened FastConsensus
  import opened Protocol
  import opened ProtocolSteps
  import opened Agreement
  import opened DisagreementRuns

  /** A subset of a given size around a given element. */
  lemma {:induction false} Around(s: set<Endpoint>, x: Endpoint, k: nat) returns (part: set<Endpoint>)
    requires x in s && 1 <= k <= |s|
    ensures part <= s && x in part && |part| == k
    decreases |s|
  {
    if k == |s| {
      part := s;
    } else {
      var y :| y in s - {x} by {
        if s - {x} == {} {
          SubsetSize(s, {x});
        }
      }
      part := Around(s - {y}, x, k);
    }
  }

  lemma InitReachable(env: Env)
    ensures Reachable(env, Init(env))
  {
    assert Execute(env, []) == Some(Init(env));
  }

  /** A node that has only proposed `v`. */
  function Proposer(env: Env, a: Endpoint, v: Proposal): FastState {
    var s := InitFast(a, env.configurationId, env.N());
    s.(paxos := s.paxos.(rnd := FAST_RANK, vrnd := FAST_RANK, vval := v))
  }

  lemma ProposeFresh(env: Env, c: Cluster, a: Endpoint, v: Proposal)
    requires Reachable(env, c) && a in env.members && a in c.nodes && a !in c.proposals && v != []
    requires c.nodes[a] == InitFast(a, env.configurationId, env.N())
    ensures Reachable(env, Next(env, c, ProposeStep(a, v)))
    ensures Next(env, c, ProposeStep(a, v))
            == c.(proposals := c.proposals[a := v], nodes := c.nodes[a := Proposer(env, a, v)],
                  sent := c.sent + {FastVotePacket(env, a, v)}, armed := c.armed + {a})
  {
    ProposeNext(env, c, a, v);
    StepReaches(env, c, ProposeStep(a, v));
  }

  lemma StartFresh(env: Env, c: Cluster, a: Endpoint, v: Proposal)
    requires Reachable(env, c) && a in env.members && a in c.nodes && c.nodes[a] == Proposer(env, a, v)
    ensures Reachable(env, Next(env, c, StartClassicStep(a)))
    ensures var s := Proposer(env, a, v);
            Next(env, c, StartClassicStep(a))
            == c.(nodes := c.nodes[a := s.(classicStarted := true, paxos := s.paxos.(crnd := env.RankOf(a)))],
                  sent := c.sent + {PreparePacket(env, a)})
  {
    var (s', outs) := StartClassicRound(c.nodes[a], env.nodeIndex(a));
    EmitSingle(Install(c, a, s'), a, outs[0]);
    StepReaches(env, c, StartClassicStep(a));
  }

  /** After `x` proposed and started, the untouched nodes of `group` can be asked. */
  lemma AskingStarts(env: Env, c: Cluster, x: Endpoint, v: Proposal, group: set<Endpoint>)
    requires c.nodes.Keys == env.members && x in group && group <= env.members && c.taken == {}
    requires var s := Proposer(env, x, v);
             c.nodes[x] == s.(classicStarted := true, paxos := s.paxos.(crnd := env.RankOf(x)))
    requires forall a :: a in group && a != x ==> c.nodes[a] == InitFast(a, env.configurationId, env.N())
    requires PreparePacket(env, x) in c.sent
    ensures Asking(env, c, x, v, group, {})
  {
    forall a | a in group ensures AnswerStatus(env, c, x, v, a, {}) {
    }
  }

  /** A lone coordinator with its own proposal, everybody else untouched. */
  lemma LoneCoordinator(env: Env, x: Endpoint, w: Proposal, group: set<Endpoint>) returns (c: Cluster)
    requires x in group && group <= env.members && w != []
    ensures Reachable(env, c) && Asking(env, c, x, w, group, {}) && c.nodes.Keys == env.members
    ensures c.proposals == map[x := w] && forall a :: a in env.members && a != x ==>
              c.nodes[a] == InitFast(a, env.configurationId, env.N())
  {
    InitReachable(env);
    ProposeFresh(env, Init(env), x, w);
    var proposed := Next(env, Init(env), ProposeStep(x, w));
    StartFresh(env, proposed, x, w);
    c := Next(env, proposed, StartClassicStep(x));
    AskingStarts(env, c, x, w, group);
  }

  // ---------------------------------------------------------------- late votes

  /** The nodes of `done` proposed `v`, those of `voters - done` did not yet, and `b` counted nothing. */
  predicate Voting(env: Env, c: Cluster, b: Endpoint, v: Proposal, voters: set<Endpoint>, done: set<Endpoint>) {
    && c.nodes.Keys == env.members && b in env.members && done <= voters <= env.members
    && (forall a {:trigger FastVotePacket(env, a, v)} :: a in done ==> FastVotePacket(env, a, v) in c.sent)
    && (forall a :: a in voters && a !in done ==> a !in c.proposals)
    && !c.nodes[b].decided && c.nodes[b].votesReceived == {} && c.nodes[b].votesPerProposal == map[]
  }

  lemma {:induction false} AllVote(env: Env, c: Cluster, b: Endpoint, v: Proposal, voters: set<Endpoint>,
                                   done: set<Endpoint>)
    returns (c': Cluster)
    requires env.lateVotes && v != []
    requires Reachable(env, c) && Voting(env, c, b, v, voters, done)
    ensures Reachable(env, c') && Voting(env, c', b, v, voters, voters) && c'.decisions == c.decisions
    decreases voters - done
  {
    if a :| a in voters && a !in done {
      ReachableNamed(env, c, a);
      ProposeNext(env, c, a, v);
      StepReaches(env, c, ProposeStep(a, v));
      c' := AllVote(env, Next(env, c, ProposeStep(a, v)), b, v, voters, done + {a});
    } else {
      assert done == voters;
      c' := c;
    }
  }

  /** `b` counted the votes of `done`, not yet a fast quorum. */
  predicate Tallying(env: Env, c: Cluster, b: Endpoint, v: Proposal, voters: set<Endpoint>, done: set<Endpoint>) {
    && c.nodes.Keys == env.members && b in env.members && done <= voters <= env.members
    && (forall a {:trigger FastVotePacket(env, a, v)} :: a in voters ==> FastVotePacket(env, a, v) in c.sent)
    && !c.nodes[b].decided && c.nodes[b].votesReceived == done && Votes(c.nodes[b], v) == |done|
  }

  lemma TallyOnce(env: Env, c: Cluster, b: Endpoint, v: Proposal, voters: set<Endpoint>, done: set<Endpoint>,
                  a: Endpoint)
    returns (c': Cluster)
    requires Reachable(env, c) && Tallying(env, c, b, v, voters, done)
    requires a in voters && a !in done
    ensures Reachable(env, c') && c.decisions <= c'.decisions
    ensures |done| + 1 >= FastQuorum(env.N()) ==> (b, v) in c'.decisions
    ensures |done| + 1 < FastQuorum(env.N()) ==> Tallying(env, c', b, v, voters, done + {a})
  {
    var p := FastVotePacket(env, a, v);
    ReachableNamed(env, c, b);
    StepReaches(env, c, DeliverStep(b, p));
    DeliverNext(env, c, b, p);
    c' := Next(env, c, DeliverStep(b, p));
    assert |done + {a}| == |done| + 1;
  }

  lemma {:induction false} AllTally(env: Env, c: Cluster, b: Endpoint, v: Proposal, voters: set<Endpoint>,
                                    done: set<Endpoint>)
    returns (c': Cluster)
    requires Reachable(env, c) && Tallying(env, c, b, v, voters, done)
    requires |done| < FastQuorum(env.N()) <= |voters|
    ensures Reachable(env, c') && c.decisions <= c'.decisions && (b, v) in c'.decisions
    decreases voters - done
  {
    var a := Remaining(voters, done);
    c' := TallyOnce(env, c, b, v, voters, done, a);
    if |done| + 1 < FastQuorum(env.N()) {
      assert |done + {a}| == |done| + 1;
      c' := AllTally(env, c', b, v, voters, done + {a});
    }
  }

  /** With five nodes or more, late votes split the decision: a bare majority decides the
      coordinator's proposal, then everybody else votes for another one and wins the fast round. */
  lemma LateVotesDisagree(env: Env) returns (c: Cluster, x: Endpoint, w: Proposal, b: Endpoint, v: Proposal)
    requires env.lateVotes && env.N() >= 5
    ensures Reachable(env, c) && (x, w) in c.decisions && (b, v) in c.decisions && w != v
  {
    x :| x in env.members;
    w, v := [x], [x, x];
    var group := Around(env.members, x, env.N() / 2 + 1);
    b := Remaining(env.members, group);
    var started := LoneCoordinator(env, x, w, group);
    var decided := MajorityDecides(env, started, x, w, group);
    assert decided.nodes[b] == InitFast(b, env.configurationId, env.N());
    var voters := env.members - {x};
    var voted := AllVote(env, decided, b, v, voters, {});
    c := AllTally(env, voted, b, v, voters, {});
  }

  // ---------------------------------------------------------------- repeated promises

  /** `y` counts its own promise over and over. */
  predicate Stuffing(env: Env, c: Cluster, y: Endpoint, v: Proposal, k: nat) {
    && c.nodes.Keys == env.members && y in env.members && k <= env.N() / 2
    && AnswerPacket(env, y, v, y) in c.sent
    && c.nodes[y].paxos.crnd == env.RankOf(y) && c.nodes[y].paxos.cval == []
    && c.nodes[y].paxos.acceptResponses == map[] && !c.nodes[y].paxos.decided
    && |c.nodes[y].paxos.promises| == k
    && (forall m :: m in c.nodes[y].paxos.promises ==> m == Answer(env, y, v, y))
  }

  lemma StuffOnce(env: Env, c: Cluster, y: Endpoint, v: Proposal, k: nat) returns (c': Cluster)
    requires env.duplicatePromises && Reachable(env, c) && Stuffing(env, c, y, v, k) && v != []
    ensures Reachable(env, c') && Calm(env, c, c', {y}) && SameRanks(c, c') && NothingLearned(c, c')
    ensures k + 1 <= env.N() / 2 ==> Stuffing(env, c', y, v, k + 1)
    ensures k + 1 > env.N() / 2 ==> OrderPacket(env, y, v) in c'.sent
  {
    OnlyVoteSelected(env, y, v, c.nodes[y].paxos.promises + [Answer(env, y, v, y)]);
    c' := PromiseArrives(env, c, y, Answer(env, y, v, y));
  }

  lemma {:induction false} Stuff(env: Env, c: Cluster, y: Endpoint, v: Proposal, k: nat) returns (c': Cluster)
    requires env.duplicatePromises && Reachable(env, c) && Stuffing(env, c, y, v, k) && v != []
    ensures Reachable(env, c') && Calm(env, c, c', {y}) && SameRanks(c, c') && NothingLearned(c, c')
    ensures OrderPacket(env, y, v) in c'.sent
    decreases env.N() - k
  {
    c' := StuffOnce(env, c, y, v, k);
    if k + 1 <= env.N() / 2 {
      var mid := c';
      c' := Stuff(env, mid, y, v, k + 1);
      CalmTrans(env, c, mid, c', {y});
    }
  }

  /** Starting its own round, a lone proposer promises to itself. */
  lemma StuffStarts(env: Env, c: Cluster, y: Endpoint, v: Proposal) returns (c': Cluster)
    requires Reachable(env, c) && c.nodes.Keys == env.members
    requires y in env.members && c.nodes[y] == Proposer(env, y, v)
    ensures Reachable(env, c') && Calm(env, c, c', {y}) && Stuffing(env, c', y, v, 0)
    ensures c'.nodes[y].paxos.rnd == env.RankOf(y) && c'.nodes[y].paxos.vrnd == FAST_RANK
  {
    StartFresh(env, c, y, v);
    c' := PrepareArrives(env, Next(env, c, StartClassicStep(y)), y, y);
  }

  /** `x` is about to ask `group`, and `y`, outside it, has only proposed. */
  lemma TwoProposers(env: Env, x: Endpoint, w: Proposal, y: Endpoint, v: Proposal, group: set<Endpoint>)
    returns (c: Cluster)
    requires w != [] && v != []
    requires x in group && group <= env.members && y in env.members && y !in group
    ensures Reachable(env, c) && Asking(env, c, x, w, group, {}) && c.nodes[y] == Proposer(env, y, v)
  {
    var two := TwoProposals(env, x, w, y, v);
    StartFresh(env, two, x, w);
    c := Next(env, two, StartClassicStep(x));
    AskingStarts(env, c, x, w, group);
  }

  /** `x` and `y` have proposed, and nothing else happened. */
  lemma TwoProposals(env: Env, x: Endpoint, w: Proposal, y: Endpoint, v: Proposal) returns (c: Cluster)
    requires w != [] && v != [] && x in env.members && y in env.members && x != y
    ensures Reachable(env, c) && c.nodes.Keys == env.members && c.taken == {}
    ensures c.nodes == Init(env).nodes[x := Proposer(env, x, w)][y := Proposer(env, y, v)]
  {
    InitReachable(env);
    ProposeFresh(env, Init(env), x, w);
    var one := Next(env, Init(env), ProposeStep(x, w));
    ProposeFresh(env, one, y, v);
    c := Next(env, one, ProposeStep(y, v));
  }

  /** `y`, alone, orders its own proposal on the strength of its own promise. */
  lemma LoneOrder(env: Env, c: Cluster, y: Endpoint, v: Proposal) returns (c': Cluster)
    requires env.duplicatePromises && v != [] && Reachable(env, c)
    requires c.nodes.Keys == env.members && y in env.members && c.nodes[y] == Proposer(env, y, v)
    ensures Reachable(env, c') && Calm(env, c, c', {y}) && OrderPacket(env, y, v) in c'.sent
    ensures var p := c'.nodes[y].paxos;
            p.rnd == env.RankOf(y) && p.vrnd == FAST_RANK && p.acceptResponses == map[] && !p.decided
  {
    var stuffing := StuffStarts(env, c, y, v);
    c' := Stuff(env, stuffing, y, v, 0);
    CalmTrans(env, c, stuffing, c', {y});
  }

  /** The nodes that accepted for `x`, except `x` itself, can accept for `y`, and so can `y`. */
  lemma CanAcceptAgain(env: Env, decided: Cluster, c: Cluster, x: Endpoint, y: Endpoint, v: Proposal,
                       group: set<Endpoint>)
    requires y in env.members && y !in group && x in group && group <= env.members
    requires env.nodeIndex(x) < env.nodeIndex(y) && Calm(env, decided, c, {y}) && OrderPacket(env, y, v) in c.sent
    requires forall a :: a in group ==>
               decided.nodes[a].paxos.rnd == env.RankOf(x) && decided.nodes[a].paxos.vrnd == env.RankOf(x)
    requires c.nodes[y].paxos.rnd == env.RankOf(y) && c.nodes[y].paxos.vrnd == FAST_RANK
    ensures Accepting(env, c, y, v, group - {x} + {y}, {}) && |group - {x} + {y}| == |group|
  {
    forall a | a in group - {x} + {y} ensures AcceptStatus(env, c, y, v, a, {}) {
      assert a != y ==> c.nodes[a] == decided.nodes[a];
    }
    assert |group - {x}| == |group| - 1;
  }

  /** With three nodes or more, one promise counted repeatedly passes for a majority and overrides
      a decided value. The node that decided first takes no further step. */
  lemma HigherRankDisagrees(env: Env, x: Endpoint, y: Endpoint)
    returns (c: Cluster, w: Proposal, v: Proposal, decided: Cluster)
    requires env.duplicatePromises && env.N() >= 3
    requires x in env.members && y in env.members && env.nodeIndex(x) < env.nodeIndex(y)
    ensures Reachable(env, c) && (x, w) in c.decisions && (y, v) in c.decisions && w != v
    ensures (x, w) in decided.decisions && x in decided.nodes && x in c.nodes && c.nodes[x] == decided.nodes[x]
  {
    w, v := [x], [x, x];
    var group := Around(env.members - {y}, x, env.N() / 2 + 1);
    var started := TwoProposers(env, x, w, y, v, group);
    decided := MajorityDecides(env, started, x, w, group);
    var ordered := LoneOrder(env, decided, y, v);
    CanAcceptAgain(env, decided, ordered, x, y, v, group);
    c := OrderDecided(env, ordered, y, v, group - {x} + {y});
  }

  // ---------------------------------------------------------------- repeated promises, one rank

  /** Two nodes of the same index order one value each, at the same rank. */
  lemma TwoOrders(env: Env, x: Endpoint, w: Proposal, y: Endpoint, v: Proposal) returns (c: Cluster)
    requires env.duplicatePromises && w != [] && v != []
    requires x in env.members && y in env.members && x != y
    ensures Reachable(env, c) && c.nodes.Keys == env.members
    ensures OrderPacket(env, x, w) in c.sent && OrderPacket(env, y, v) in c.sent
    ensures forall a :: a in env.members ==> Unaccepted(env, c, a, x, y)
  {
    var two := TwoProposals(env, x, w, y, v);
    var first := LoneOrder(env, two, x, w);
    c := LoneOrder(env, first, y, v);
  }

  /** `a` accepted and learned nothing, and promised at most its own rank. */
  predicate Unaccepted(env: Env, c: Cluster, a: Endpoint, x: Endpoint, y: Endpoint)
    requires a in c.nodes
  {
    var p := c.nodes[a].paxos;
    && p.acceptResponses == map[] && !p.decided && p.vrnd.round <= 1
    && (if a in {x, y} then p.rnd == env.RankOf(a) else p.rnd.round <= 1)
  }

  /** All of `group` but `y` accept the order of `x`, and `y` its own. */
  lemma BothAccepted(env: Env, c: Cluster, x: Endpoint, w: Proposal, y: Endpoint, v: Proposal, group: set<Endpoint>)
    returns (c': Cluster)
    requires Reachable(env, c) && c.nodes.Keys == env.members
    requires x in group && y in group && group <= env.members && x != y && env.nodeIndex(x) == env.nodeIndex(y)
    requires OrderPacket(env, x, w) in c.sent && OrderPacket(env, y, v) in c.sent
    requires forall a :: a in env.members ==> Unaccepted(env, c, a, x, y)
    ensures Reachable(env, c') && c'.nodes.Keys == env.members
    ensures CanLearn(c', x) && CanLearn(c', y)
    ensures forall a :: a in group ==> AcceptPacket(env, a, env.RankOf(x), if a == y then v else w) in c'.sent
  {
    AllCanAccept(env, c, x, w, y, v, group);
    var mid := AllAccept(env, c, x, w, group - {y}, {});
    c' := OrderArrives(env, mid, y, v, y);
    forall a | a in group - {y} ensures AcceptPacket(env, a, env.RankOf(x), w) in c'.sent {
      assert AcceptStatus(env, mid, x, w, a, group - {y});
    }
  }

  lemma AllCanAccept(env: Env, c: Cluster, x: Endpoint, w: Proposal, y: Endpoint, v: Proposal, group: set<Endpoint>)
    requires c.nodes.Keys == env.members && x in group && y in group && group <= env.members
    requires env.nodeIndex(x) == env.nodeIndex(y) && OrderPacket(env, x, w) in c.sent
    requires forall a :: a in env.members ==> Unaccepted(env, c, a, x, y)
    ensures Accepting(env, c, x, w, group - {y}, {})
    ensures RankAtMost(c.nodes[y].paxos.rnd, env.RankOf(y)) && c.nodes[y].paxos.vrnd != env.RankOf(y)
    ensures CanLearn(c, x) && CanLearn(c, y)
  {
    assert Unaccepted(env, c, x, x, y) && Unaccepted(env, c, y, x, y);
    forall a | a in group - {y} ensures AcceptStatus(env, c, x, w, a, {}) {
      assert Unaccepted(env, c, a, x, y);
    }
  }

  /** `a` has counted no acceptance. */
  predicate CanLearn(c: Cluster, a: Endpoint) {
    a in c.nodes && c.nodes[a].paxos.acceptResponses == map[] && !c.nodes[a].paxos.decided
  }

  lemma LearningStarts(env: Env, c: Cluster, z: Endpoint, y: Endpoint, w: Proposal, v: Proposal, group: set<Endpoint>)
    requires c.nodes.Keys == env.members && z in env.members && CanLearn(c, z)
    requires forall a :: a in group ==> AcceptPacket(env, a, env.RankOf(z), if a == y then v else w) in c.sent
    ensures Learning(env, c, z, SplitVotes(group, y, w, v), {})
  {
  }

  function SplitVotes(group: set<Endpoint>, y: Endpoint, w: Proposal, v: Proposal): map<Endpoint, Proposal> {
    map a | a in group :: if a == y then v else w
  }

  /** Two nodes of the same index suffice, even if they are all there are: each orders on the strength
      of its own promise, and each decides what it hears last. */
  lemma SameRankDisagrees(env: Env, x: Endpoint, y: Endpoint)
    returns (c: Cluster, w: Proposal, v: Proposal, decided: Cluster)
    requires env.duplicatePromises && x != y
    requires x in env.members && y in env.members && env.nodeIndex(x) == env.nodeIndex(y)
    ensures Reachable(env, c) && (x, w) in c.decisions && (y, v) in c.decisions && w != v
    ensures (x, w) in decided.decisions && x in decided.nodes && x in c.nodes && c.nodes[x] == decided.nodes[x]
  {
    w, v := [x], [x, x];
    SubsetSize({x, y}, env.members);
    var part := Around(env.members - {y}, x, env.N() / 2);
    var group := part + {y};
    var votes := SplitVotes(group, y, w, v);
    assert votes.Keys == group && |group| == env.N() / 2 + 1;
    var ordered := TwoOrders(env, x, w, y, v);
    var accepted := BothAccepted(env, ordered, x, w, y, v, group);
    LearningStarts(env, accepted, x, y, w, v, group);
    decided := Learn(env, accepted, x, votes, x, {});
    LearningStarts(env, decided, y, y, w, v, group);
    c := Learn(env, decided, y, votes, y, {});
  }

  /** Repeated promises split the decision of three nodes or more, and of two with the same index. */
  lemma RepeatedPromisesDisagree(env: Env)
    returns (c: Cluster, x: Endpoint, w: Proposal, y: Endpoint, v: Proposal, decided: Cluster)
    requires env.duplicatePromises && (env.N() >= 3 || !env.ToldApart())
    ensures Reachable(env, c) && (x, w) in c.decisions && (y, v) in c.decisions && w != v
    ensures (x, w) in decided.decisions && x in decided.nodes && x in c.nodes && c.nodes[x] == decided.nodes[x]
  {
    x, y := TwoMembers(env);
    if env.nodeIndex(x) == env.nodeIndex(y) {
      c, w, v, decided := SameRankDisagrees(env, x, y);
    } else {
      c, w, v, decided := HigherRankDisagrees(env, x, y);
    }
  }

  lemma TwoMembers(env: Env) returns (x: Endpoint, y: Endpoint)
    requires env.N() >= 3 || !env.ToldApart()
    ensures x in env.members && y in env.members && x != y && env.nodeIndex(x) <= env.nodeIndex(y)
    ensures env.N() >= 3 || env.nodeIndex(x) == env.nodeIndex(y)
  {
    if env.ToldApart() {
      x := AnyMember(env.members);
      y := Remaining(env.members, {x});
      if env.nodeIndex(x) > env.nodeIndex(y) {
        x, y := y, x;
      }
    } else {
      x, y :| x in env.members && y in env.members && env.nodeIndex(x) == env.nodeIndex(y) && x != y;
    }
  }

  // ---------------------------------------------------------------- the exact condition

  predicate Disagree(c: Cluster) {
    exists d, e :: d in c.decisions && e in c.decisions && d.1 != e.1
  }

  ghost predicate SomeRunDisagrees(env: Env) {
    exists c :: Reachable(env, c) && Disagree(c)
  }

  lemma UnsafeDisagrees(env: Env)
    requires !env.Safe()
    ensures SomeRunDisagrees(env)
  {
    var c, x, w, y, v;
    if env.lateVotes && env.N() >= 5 {
      c, x, w, y, v := LateVotesDisagree(env);
    } else {
      var decided;
      c, x, w, y, v, decided := RepeatedPromisesDisagree(env);
    }
    assert (x, w).1 != (y, v).1;
    assert Disagree(c);
  }

  lemma SafeAgrees(env: Env, c: Cluster)
    requires env.Valid() && env.Safe() && Reachable(env, c)
    ensures !Disagree(c)
  {
    var steps :| Execute(env, steps) == Some(c);
    forall d, e | d in c.decisions && e in c.decisions ensures d.1 == e.1 {
      AllDecisionsAgree(env, steps, d, e);
    }
  }

  /** Agreement of all runs, characterised for every membership and every node indices: it holds if
      and only if late votes are possible only among at most four nodes and repeated promises only of
      one node, or of two whose indices differ. */
  lemma AgreementIffSafe(env: Env)
    requires env.Valid()
    ensures (forall c :: Reachable(env, c) ==> !Disagree(c)) <==> env.Safe()
  {
    if env.Safe() {
      forall c | Reachable(env, c) ensures !Disagree(c) {
        SafeAgrees(env, c);
      }
    } else {
      UnsafeDisagrees(env);
    }
  }
}
