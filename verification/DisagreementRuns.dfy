/** Why the environment must be safe: runs that decide two values when it is not.

    A node may call `propose` after it promised a classic rank: `register_fast_round_vote` then
    refuses the vote but `propose` broadcasts it all the same. And `handle_phase1b` counts a
    repeated promise twice. The runs below turn either into a disagreement, for every cluster
    large enough. */
module DisagreementRuns {
  import opened Types
  import opened SetFacts
  import opened CoordinatorRule
  import opened Messages
  import opened ClassicPaxos
  import opened Protocol
  import opened ProtocolInvariant
  import opened ProtocolSteps

  ghost predicate Reachable(env: Env, c: Cluster) {
    exists steps :: Execute(env, steps) == Some(c)
  }

  lemma StepReaches(env: Env, c: Cluster, step: Step)
    requires Reachable(env, c) && Enabled(env, c, step)
    ensures Reachable(env, Next(env, c, step))
  {
    var steps :| Execute(env, steps) == Some(c);
    assert (steps + [step])[..|steps|] == steps;
    assert Execute(env, steps + [step]) == Some(Next(env, c, step));
  }

  lemma Remaining(group: set<Endpoint>, done: set<Endpoint>) returns (a: Endpoint)
    requires |done| < |group|
    ensures a in group && a !in done
  {
    if forall b :: b in group ==> b in done {
      SubsetSize(group, done);
    }
    a :| a in group && a !in done;
  }

  /** What every reachable node knows about itself. */
  predicate Named(env: Env, c: Cluster, a: Endpoint) {
    && a in c.nodes
    && c.nodes[a].myAddr == a && c.nodes[a].configurationId == env.configurationId
    && c.nodes[a].membershipSize == env.N()
    && c.nodes[a].paxos.myAddr == a && c.nodes[a].paxos.configurationId == env.configurationId
    && c.nodes[a].paxos.n == env.N()
  }

  lemma ReachableNamed(env: Env, c: Cluster, a: Endpoint)
    requires Reachable(env, c) && a in env.members
    ensures Named(env, c, a) && c.nodes.Keys == env.members
  {
    var steps :| Execute(env, steps) == Some(c);
    RunKeeps(env, steps);
    assert NodeOk(env, c, a, c.nodes[a]);
  }

  /** From `c` to `c'` only nodes in `group` moved, and nobody proposed. */
  predicate Calm(env: Env, c: Cluster, c': Cluster, group: set<Endpoint>) {
    && c.nodes.Keys == env.members && c'.nodes.Keys == env.members
    && c'.proposals == c.proposals && c.sent <= c'.sent && c.decisions <= c'.decisions
    && (forall y :: y in env.members && y !in group ==> c'.nodes[y] == c.nodes[y])
  }

  // ---------------------------------------------------------------- single steps, spelled out

  function PreparePacket(env: Env, x: Endpoint): Packet {
    Packet(None, Phase1a(Phase1aMessage(env.configurationId, Some(x), Some(env.RankOf(x)))))
  }

  /** The promise of a node whose last vote is (vr, vv). */
  function PromiseOf(env: Env, x: Endpoint, a: Endpoint, vr: Rank, vv: Proposal): Phase1bMessage {
    Phase1bMessage(env.configurationId, Some(env.RankOf(x)), Some(a), Some(vr), vv)
  }

  function PromisePacket(env: Env, x: Endpoint, m: Phase1bMessage): Packet {
    Packet(Some(x), Phase1b(m))
  }

  lemma DeliverPrepare(env: Env, c: Cluster, x: Endpoint, a: Endpoint)
    requires Named(env, c, a) && RankLess(c.nodes[a].paxos.rnd, env.RankOf(x))
    ensures var s := c.nodes[a];
            Next(env, c, DeliverStep(a, PreparePacket(env, x)))
            == c.(taken := c.taken + {PreparePacket(env, x)},
                  nodes := c.nodes[a := s.(decided := s.decided || s.paxos.decided,
                                           paxos := s.paxos.(rnd := env.RankOf(x)))],
                  sent := c.sent + {PromisePacket(env, x, PromiseOf(env, x, a, s.paxos.vrnd, s.paxos.vval))})
  {
    DeliverNext(env, c, a, PreparePacket(env, x));
  }

  lemma DeliverOrder(env: Env, c: Cluster, x: Endpoint, v: Proposal, a: Endpoint)
    requires Named(env, c, a)
    requires RankAtMost(c.nodes[a].paxos.rnd, env.RankOf(x)) && c.nodes[a].paxos.vrnd != env.RankOf(x)
    ensures var s := c.nodes[a];
            Next(env, c, DeliverStep(a, OrderPacket(env, x, v)))
            == c.(taken := c.taken + {OrderPacket(env, x, v)},
                  nodes := c.nodes[a := s.(decided := s.decided || s.paxos.decided,
                                           paxos := s.paxos.(rnd := env.RankOf(x), vrnd := env.RankOf(x), vval := v))],
                  sent := c.sent + {AcceptPacket(env, a, env.RankOf(x), v)})
  {
    DeliverNext(env, c, a, OrderPacket(env, x, v));
  }

  // ---------------------------------------------------------------- a majority decides classically

  /** A node of `done` accepted the order of `x`; any other still can. */
  predicate AcceptStatus(env: Env, c: Cluster, x: Endpoint, v: Proposal, a: Endpoint, done: set<Endpoint>)
    requires a in c.nodes
  {
    var p := c.nodes[a].paxos;
    if a in done then
      AcceptPacket(env, a, env.RankOf(x), v) in c.sent && p.rnd == env.RankOf(x) && p.vrnd == env.RankOf(x)
    else
      RankAtMost(p.rnd, env.RankOf(x)) && p.vrnd != env.RankOf(x)
  }

  predicate Accepting(env: Env, c: Cluster, x: Endpoint, v: Proposal, group: set<Endpoint>, done: set<Endpoint>) {
    && c.nodes.Keys == env.members && group <= env.members && done <= group
    && OrderPacket(env, x, v) in c.sent
    && (forall a {:trigger AcceptStatus(env, c, x, v, a, done)} :: a in group ==> AcceptStatus(env, c, x, v, a, done))
  }

  /** Nobody learned anything in between. */
  predicate NothingLearned(c: Cluster, c': Cluster) {
    && c'.nodes.Keys == c.nodes.Keys
    && forall z :: z in c.nodes ==>
         && c'.nodes[z].paxos.acceptResponses == c.nodes[z].paxos.acceptResponses
         && c'.nodes[z].paxos.decided == c.nodes[z].paxos.decided
  }

  lemma AcceptOnce(env: Env, c: Cluster, x: Endpoint, v: Proposal, group: set<Endpoint>, done: set<Endpoint>,
                   a: Endpoint)
    returns (c': Cluster)
    requires Reachable(env, c) && x in env.members
    requires Accepting(env, c, x, v, group, done) && a in group && a !in done
    ensures Reachable(env, c') && Accepting(env, c', x, v, group, done + {a})
    ensures Calm(env, c, c', group) && NothingLearned(c, c')
  {
    assert AcceptStatus(env, c, x, v, a, done);
    c' := OrderArrives(env, c, x, v, a);
    forall b | b in group ensures AcceptStatus(env, c', x, v, b, done + {a}) {
      assert AcceptStatus(env, c, x, v, b, done);
    }
  }

  /** The order of `x` reaches `a`, which accepts it. */
  lemma OrderArrives(env: Env, c: Cluster, x: Endpoint, v: Proposal, a: Endpoint) returns (c': Cluster)
    requires Reachable(env, c) && a in env.members && a in c.nodes && OrderPacket(env, x, v) in c.sent
    requires RankAtMost(c.nodes[a].paxos.rnd, env.RankOf(x)) && c.nodes[a].paxos.vrnd != env.RankOf(x)
    ensures Reachable(env, c') && Calm(env, c, c', {a}) && NothingLearned(c, c')
    ensures c'.nodes[a].paxos.rnd == env.RankOf(x) && c'.nodes[a].paxos.vrnd == env.RankOf(x)
    ensures AcceptPacket(env, a, env.RankOf(x), v) in c'.sent
  {
    ReachableNamed(env, c, a);
    DeliverOrder(env, c, x, v, a);
    StepReaches(env, c, DeliverStep(a, OrderPacket(env, x, v)));
    c' := Next(env, c, DeliverStep(a, OrderPacket(env, x, v)));
    OneMovedUnlearned(env, c, c', a);
  }

  /** One node moved, and counted no acceptance. */
  lemma OneMovedUnlearned(env: Env, c: Cluster, c': Cluster, a: Endpoint)
    requires c.nodes.Keys == env.members && a in c.nodes && a in c'.nodes && c'.nodes == c.nodes[a := c'.nodes[a]]
    requires c'.proposals == c.proposals && c.sent <= c'.sent && c.decisions <= c'.decisions
    requires c'.nodes[a].paxos.acceptResponses == c.nodes[a].paxos.acceptResponses
    requires c'.nodes[a].paxos.decided == c.nodes[a].paxos.decided
    ensures Calm(env, c, c', {a}) && NothingLearned(c, c')
  {
  }

  lemma CalmTrans(env: Env, c: Cluster, d: Cluster, e: Cluster, group: set<Endpoint>)
    requires Calm(env, c, d, group) && Calm(env, d, e, group)
    ensures Calm(env, c, e, group)
  {
  }

  lemma {:induction false} AllAccept(env: Env, c: Cluster, x: Endpoint, v: Proposal, group: set<Endpoint>,
                                     done: set<Endpoint>)
    returns (c': Cluster)
    requires Reachable(env, c) && x in env.members && Accepting(env, c, x, v, group, done)
    ensures Reachable(env, c') && Accepting(env, c', x, v, group, group)
    ensures Calm(env, c, c', group) && NothingLearned(c, c')
    decreases group - done
  {
    if a :| a in group && a !in done {
      var mid := AcceptOnce(env, c, x, v, group, done, a);
      c' := AllAccept(env, mid, x, v, group, done + {a});
      CalmTrans(env, c, mid, c', group);
    } else {
      assert done == group;
      c' := c;
    }
  }

  /** The accepted values in `votes` are on the network; `x` has counted exactly those of `done`. */
  predicate Learning(env: Env, c: Cluster, x: Endpoint, votes: map<Endpoint, Proposal>, done: set<Endpoint>) {
    && c.nodes.Keys == env.members && x in env.members && done <= votes.Keys
    && (forall a {:trigger votes[a]} :: a in votes ==> AcceptPacket(env, a, env.RankOf(x), votes[a]) in c.sent)
    && !c.nodes[x].paxos.decided && Bucket(c.nodes[x].paxos, env.RankOf(x)).Keys == done
  }

  /** The acceptor's ranks of every node are the same in both states. */
  predicate SameRanks(c: Cluster, c': Cluster) {
    && c'.nodes.Keys == c.nodes.Keys
    && forall a :: a in c.nodes ==>
         c'.nodes[a].paxos.rnd == c.nodes[a].paxos.rnd && c'.nodes[a].paxos.vrnd == c.nodes[a].paxos.vrnd
  }

  /** One node moved, and kept its ranks. */
  lemma OneMoved(env: Env, c: Cluster, c': Cluster, x: Endpoint)
    requires c.nodes.Keys == env.members && x in c.nodes && x in c'.nodes && c'.nodes == c.nodes[x := c'.nodes[x]]
    requires c'.proposals == c.proposals && c.sent <= c'.sent && c.decisions <= c'.decisions
    requires c'.nodes[x].paxos.rnd == c.nodes[x].paxos.rnd && c'.nodes[x].paxos.vrnd == c.nodes[x].paxos.vrnd
    ensures Calm(env, c, c', {x}) && SameRanks(c, c')
  {
  }

  lemma DeliverAccept(env: Env, c: Cluster, x: Endpoint, v: Proposal, a: Endpoint)
    requires Named(env, c, x) && !c.nodes[x].paxos.decided
    ensures var s := c.nodes[x];
            var m := AcceptPacket(env, a, env.RankOf(x), v).request.accept;
            var bucket := Bucket(s.paxos, env.RankOf(x))[a := m];
            var p := s.paxos.(acceptResponses := s.paxos.acceptResponses[env.RankOf(x) := bucket],
                              decided := |bucket| > env.N() / 2);
            var c0 := c.(taken := c.taken + {AcceptPacket(env, a, env.RankOf(x), v)},
                         nodes := c.nodes[x := s.(decided := s.decided || p.decided, paxos := p)]);
            Next(env, c, DeliverStep(x, AcceptPacket(env, a, env.RankOf(x), v)))
            == if |bucket| > env.N() / 2 then c0.(decisions := c.decisions + {(x, v)}) else c0
  {
    DeliverNext(env, c, x, AcceptPacket(env, a, env.RankOf(x), v));
  }

  /** Buckets are keyed by rank alone: the value decided is that of the last acceptance. */
  lemma LearnOnce(env: Env, c: Cluster, x: Endpoint, votes: map<Endpoint, Proposal>, done: set<Endpoint>, a: Endpoint)
    returns (c': Cluster)
    requires Reachable(env, c) && Learning(env, c, x, votes, done)
    requires a in votes && a !in done
    ensures Reachable(env, c') && Calm(env, c, c', {x}) && SameRanks(c, c')
    ensures |done| + 1 > env.N() / 2 ==> (x, votes[a]) in c'.decisions
    ensures |done| + 1 <= env.N() / 2 ==> Learning(env, c', x, votes, done + {a})
  {
    c' := AcceptanceArrives(env, c, x, votes[a], a);
    BucketGrows(Bucket(c.nodes[x].paxos, env.RankOf(x)), a,
                AcceptPacket(env, a, env.RankOf(x), votes[a]).request.accept, done);
    if |done| + 1 <= env.N() / 2 {
      LearnedOneMore(env, c, c', x, votes, done, a);
    }
  }

  /** One acceptance reaches the coordinator: its bucket grows, and it decides past a majority. */
  lemma AcceptanceArrives(env: Env, c: Cluster, x: Endpoint, v: Proposal, a: Endpoint) returns (c': Cluster)
    requires Reachable(env, c) && x in env.members && x in c.nodes && !c.nodes[x].paxos.decided
    requires AcceptPacket(env, a, env.RankOf(x), v) in c.sent
    ensures Reachable(env, c') && Calm(env, c, c', {x}) && SameRanks(c, c')
    ensures var bucket := Bucket(c.nodes[x].paxos, env.RankOf(x))[
                            a := AcceptPacket(env, a, env.RankOf(x), v).request.accept];
            && c'.nodes[x].paxos.acceptResponses == c.nodes[x].paxos.acceptResponses[env.RankOf(x) := bucket]
            && c'.nodes[x].paxos.decided == (|bucket| > env.N() / 2)
            && (|bucket| > env.N() / 2 ==> (x, v) in c'.decisions)
  {
    var p := AcceptPacket(env, a, env.RankOf(x), v);
    ReachableNamed(env, c, x);
    DeliverAccept(env, c, x, v, a);
    StepReaches(env, c, DeliverStep(x, p));
    c' := Next(env, c, DeliverStep(x, p));
    OneMoved(env, c, c', x);
  }

  lemma LearnedOneMore(env: Env, c: Cluster, c': Cluster, x: Endpoint, votes: map<Endpoint, Proposal>,
                       done: set<Endpoint>, a: Endpoint)
    requires Learning(env, c, x, votes, done) && Calm(env, c, c', {x}) && a in votes
    requires !c'.nodes[x].paxos.decided
    requires Bucket(c'.nodes[x].paxos, env.RankOf(x)).Keys == done + {a}
    ensures Learning(env, c', x, votes, done + {a})
  {
  }

  lemma BucketGrows(bucket: map<Endpoint, Phase2bMessage>, a: Endpoint, m: Phase2bMessage, done: set<Endpoint>)
    requires bucket.Keys == done && a !in done
    ensures bucket[a := m].Keys == done + {a} && |bucket[a := m]| == |done| + 1
  {
    assert bucket[a := m].Keys == done + {a};
    assert |bucket[a := m].Keys| == |done + {a}|;
  }

  /** The acceptances of a bare majority reach `x`, that of `last` at the end: its value is decided. */
  lemma {:induction false} Learn(env: Env, c: Cluster, x: Endpoint, votes: map<Endpoint, Proposal>, last: Endpoint,
                                 done: set<Endpoint>)
    returns (c': Cluster)
    requires Reachable(env, c) && Learning(env, c, x, votes, done)
    requires last in votes && last !in done && |votes| == env.N() / 2 + 1
    ensures Reachable(env, c') && (x, votes[last]) in c'.decisions && Calm(env, c, c', {x}) && SameRanks(c, c')
    decreases |votes| - |done|
  {
    var a := NextHeard(votes, last, done);
    c' := LearnOnce(env, c, x, votes, done, a);
    if a != last {
      var mid := c';
      c' := Learn(env, mid, x, votes, last, done + {a});
      CalmTrans(env, c, mid, c', {x});
    }
  }

  /** Whose acceptance to hear next, so that `last` comes at the end. */
  lemma NextHeard(votes: map<Endpoint, Proposal>, last: Endpoint, done: set<Endpoint>) returns (a: Endpoint)
    requires done <= votes.Keys && last in votes && last !in done
    ensures a in votes && a !in done && |done + {a}| == |done| + 1
    ensures if a == last then |done| + 1 == |votes| else |done| + 1 < |votes|
  {
    if b :| b in votes && b != last && b !in done {
      a := b;
      SubsetSize(done + {b} + {last}, votes.Keys);
    } else {
      a := last;
      assert done + {last} == votes.Keys;
    }
  }

  /** An order a bare majority can accept gets decided at its coordinator. */
  lemma OrderDecided(env: Env, c: Cluster, x: Endpoint, v: Proposal, group: set<Endpoint>) returns (c': Cluster)
    requires Reachable(env, c) && x in env.members
    requires Accepting(env, c, x, v, group, {}) && |group| == env.N() / 2 + 1
    requires !c.nodes[x].paxos.decided && c.nodes[x].paxos.acceptResponses == map[]
    ensures Reachable(env, c') && (x, v) in c'.decisions && Calm(env, c, c', group + {x})
    ensures forall a :: a in group ==>
              c'.nodes[a].paxos.rnd == env.RankOf(x) && c'.nodes[a].paxos.vrnd == env.RankOf(x)
  {
    var mid := AllAccept(env, c, x, v, group, {});
    forall a | a in group
      ensures AcceptPacket(env, a, env.RankOf(x), v) in mid.sent
              && mid.nodes[a].paxos.rnd == env.RankOf(x) && mid.nodes[a].paxos.vrnd == env.RankOf(x)
    {
      assert AcceptStatus(env, mid, x, v, a, group);
    }
    var votes := map a | a in group :: v;
    assert votes.Keys == group;
    var last := AnyMember(group);
    c' := Learn(env, mid, x, votes, last, {});
  }

  // ---------------------------------------------------------------- a majority promises

  /** The last vote of a node of `group`: only the coordinator `x` voted, for `v`. */
  function VoteRank(x: Endpoint, a: Endpoint): Rank { if a == x then FAST_RANK else ZERO_RANK }
  function VoteValue(x: Endpoint, v: Proposal, a: Endpoint): Proposal { if a == x then v else [] }

  function Answer(env: Env, x: Endpoint, v: Proposal, a: Endpoint): Phase1bMessage {
    PromiseOf(env, x, a, VoteRank(x, a), VoteValue(x, v, a))
  }

  function AnswerPacket(env: Env, x: Endpoint, v: Proposal, a: Endpoint): Packet {
    PromisePacket(env, x, Answer(env, x, v, a))
  }

  /** A node of `done` answered the coordinator `x`; any other still can. */
  predicate AnswerStatus(env: Env, c: Cluster, x: Endpoint, v: Proposal, a: Endpoint, done: set<Endpoint>)
    requires a in c.nodes
  {
    var p := c.nodes[a].paxos;
    && p.vrnd == VoteRank(x, a) && p.vval == VoteValue(x, v, a)
    && if a in done then AnswerPacket(env, x, v, a) in c.sent && p.rnd == env.RankOf(x) else p.rnd.round <= 1
  }

  /** `x` started its round and has heard of nothing yet. */
  predicate FreshCoordinator(env: Env, c: Cluster, x: Endpoint)
    requires x in c.nodes
  {
    var p := c.nodes[x].paxos;
    p.crnd == env.RankOf(x) && p.promises == [] && p.cval == [] && p.acceptResponses == map[] && !p.decided
  }

  predicate NoPromiseTaken(c: Cluster) {
    forall p :: p in c.taken ==> !p.request.Phase1b?
  }

  predicate Asking(env: Env, c: Cluster, x: Endpoint, v: Proposal, group: set<Endpoint>, done: set<Endpoint>) {
    && c.nodes.Keys == env.members && x in group && group <= env.members && done <= group
    && PreparePacket(env, x) in c.sent && FreshCoordinator(env, c, x) && NoPromiseTaken(c)
    && (forall a {:trigger AnswerStatus(env, c, x, v, a, done)} :: a in group ==> AnswerStatus(env, c, x, v, a, done))
  }

  lemma AnswerOnce(env: Env, c: Cluster, x: Endpoint, v: Proposal, group: set<Endpoint>, done: set<Endpoint>,
                   a: Endpoint)
    returns (c': Cluster)
    requires Reachable(env, c) && Asking(env, c, x, v, group, done) && a in group && a !in done
    ensures Reachable(env, c') && Asking(env, c', x, v, group, done + {a}) && Calm(env, c, c', group)
  {
    assert AnswerStatus(env, c, x, v, a, done);
    c' := PrepareArrives(env, c, x, a);
    forall b | b in group ensures AnswerStatus(env, c', x, v, b, done + {a}) {
      assert AnswerStatus(env, c, x, v, b, done);
    }
  }

  /** The coordinator's prepare reaches `a`, which answers with its last vote. */
  lemma PrepareArrives(env: Env, c: Cluster, x: Endpoint, a: Endpoint) returns (c': Cluster)
    requires Reachable(env, c) && a in env.members && a in c.nodes
    requires PreparePacket(env, x) in c.sent && RankLess(c.nodes[a].paxos.rnd, env.RankOf(x))
    ensures Reachable(env, c') && Calm(env, c, c', {a}) && c'.taken == c.taken + {PreparePacket(env, x)}
    ensures var p := c.nodes[a].paxos;
            && c'.nodes[a].paxos == p.(rnd := env.RankOf(x))
            && PromisePacket(env, x, PromiseOf(env, x, a, p.vrnd, p.vval)) in c'.sent
  {
    ReachableNamed(env, c, a);
    DeliverPrepare(env, c, x, a);
    StepReaches(env, c, DeliverStep(a, PreparePacket(env, x)));
    c' := Next(env, c, DeliverStep(a, PreparePacket(env, x)));
  }

  lemma {:induction false} AllAnswer(env: Env, c: Cluster, x: Endpoint, v: Proposal, group: set<Endpoint>,
                                     done: set<Endpoint>)
    returns (c': Cluster)
    requires Reachable(env, c) && Asking(env, c, x, v, group, done)
    ensures Reachable(env, c') && Asking(env, c', x, v, group, group) && Calm(env, c, c', group)
    decreases group - done
  {
    if a :| a in group && a !in done {
      var mid := AnswerOnce(env, c, x, v, group, done, a);
      c' := AllAnswer(env, mid, x, v, group, done + {a});
      CalmTrans(env, c, mid, c', group);
    } else {
      assert done == group;
      c' := c;
    }
  }

  /** Promises that report only `x`'s fast vote, with it among them, select it. */
  lemma OnlyVoteSelected(env: Env, x: Endpoint, v: Proposal, q: seq<Phase1bMessage>)
    requires v != [] && Answer(env, x, v, x) in q
    requires forall m :: m in q ==> m.sender.Some? && m == Answer(env, x, v, m.sender.value)
    ensures Select(q, env.N()) == v
  {
    MaxVrndIsMax(q);
    assert RankAtMost(FAST_RANK, MaxVrnd(q).value);
    assert MaxVrnd(q) == Some(FAST_RANK);
    SelectsUnanimousVote(q, env.N(), FAST_RANK, v);
  }

  lemma DeliverPromise(env: Env, c: Cluster, x: Endpoint, m: Phase1bMessage)
    requires Named(env, c, x) && m.configurationId == env.configurationId
    requires m.rnd == Some(env.RankOf(x)) && c.nodes[x].paxos.crnd == env.RankOf(x)
    requires c.nodes[x].paxos.cval == [] && c.nodes[x].paxos.decided == false
    ensures var s := c.nodes[x];
            var q := s.paxos.promises + [m];
            var v := if |q| > env.N() / 2 then Select(q, env.N()) else [];
            var c' := Next(env, c, DeliverStep(x, PromisePacket(env, x, m)));
            && c'.taken == c.taken + {PromisePacket(env, x, m)}
            && c'.nodes == c.nodes[x := s.(paxos := s.paxos.(promises := q, cval := v))]
            && c'.sent == c.sent + (if v == [] then {} else {OrderPacket(env, x, v)})
            && c'.proposals == c.proposals && c'.decisions == c.decisions
  {
    DeliverNext(env, c, x, PromisePacket(env, x, m));
  }

  /** What `x` collected: an answer of every node of `done`, and nothing else. */
  predicate CollectedAnswers(env: Env, q: seq<Phase1bMessage>, x: Endpoint, v: Proposal, done: set<Endpoint>) {
    && |q| == |done|
    && (forall m :: m in q ==> m.sender.Some? && m == Answer(env, x, v, m.sender.value))
    && (x in done ==> Answer(env, x, v, x) in q)
  }

  predicate Collecting(env: Env, c: Cluster, x: Endpoint, v: Proposal, group: set<Endpoint>, done: set<Endpoint>) {
    && c.nodes.Keys == env.members && x in group && group <= env.members && done <= group
    && c.nodes[x].paxos.crnd == env.RankOf(x) && c.nodes[x].paxos.cval == []
    && c.nodes[x].paxos.acceptResponses == map[] && !c.nodes[x].paxos.decided
    && (forall a {:trigger AnswerPacket(env, x, v, a)} :: a in group ==>
          AnswerPacket(env, x, v, a) in c.sent && (a !in done ==> AnswerPacket(env, x, v, a) !in c.taken))
    && CollectedAnswers(env, c.nodes[x].paxos.promises, x, v, done)
  }

  lemma CollectOnce(env: Env, c: Cluster, x: Endpoint, v: Proposal, group: set<Endpoint>, done: set<Endpoint>,
                    a: Endpoint)
    returns (c': Cluster)
    requires Reachable(env, c) && Collecting(env, c, x, v, group, done) && v != []
    requires a in group && a !in done && |group| == env.N() / 2 + 1
    ensures Reachable(env, c') && Calm(env, c, c', {x}) && SameRanks(c, c') && NothingLearned(c, c')
    ensures |done| + 1 == |group| ==> OrderPacket(env, x, v) in c'.sent
    ensures |done| + 1 < |group| ==> Collecting(env, c', x, v, group, done + {a})
  {
    AnswersGrow(env, c.nodes[x].paxos.promises, x, v, group, done, a);
    assert AnswerPacket(env, x, v, a) in c.sent;
    c' := PromiseArrives(env, c, x, Answer(env, x, v, a));
    if |done| + 1 < |group| {
      CollectedOneMore(env, c, c', x, v, group, done, a);
    }
  }

  /** One promise reaches the coordinator `x`, which orders a value once past a majority. */
  lemma PromiseArrives(env: Env, c: Cluster, x: Endpoint, m: Phase1bMessage) returns (c': Cluster)
    requires Reachable(env, c) && x in env.members && x in c.nodes
    requires m.configurationId == env.configurationId && m.rnd == Some(env.RankOf(x))
    requires PromisePacket(env, x, m) in c.sent && (!env.duplicatePromises ==> PromisePacket(env, x, m) !in c.taken)
    requires c.nodes[x].paxos.crnd == env.RankOf(x) && c.nodes[x].paxos.cval == [] && !c.nodes[x].paxos.decided
    ensures Reachable(env, c') && Calm(env, c, c', {x}) && SameRanks(c, c') && NothingLearned(c, c')
    ensures c'.taken == c.taken + {PromisePacket(env, x, m)}
    ensures var q := c.nodes[x].paxos.promises + [m];
            var w := if |q| > env.N() / 2 then Select(q, env.N()) else [];
            && c'.nodes[x].paxos.promises == q && c'.nodes[x].paxos.cval == w
            && c'.nodes[x].paxos.crnd == env.RankOf(x) && (w != [] ==> OrderPacket(env, x, w) in c'.sent)
  {
    ReachableNamed(env, c, x);
    DeliverPromise(env, c, x, m);
    StepReaches(env, c, DeliverStep(x, PromisePacket(env, x, m)));
    c' := Next(env, c, DeliverStep(x, PromisePacket(env, x, m)));
    OneMoved(env, c, c', x);
    OneMovedUnlearned(env, c, c', x);
  }

  lemma CollectedOneMore(env: Env, c: Cluster, c': Cluster, x: Endpoint, v: Proposal, group: set<Endpoint>,
                         done: set<Endpoint>, a: Endpoint)
    requires Collecting(env, c, x, v, group, done) && a in group && Calm(env, c, c', {x}) && NothingLearned(c, c')
    requires c'.taken == c.taken + {AnswerPacket(env, x, v, a)} && c'.nodes[x].paxos.crnd == env.RankOf(x)
    requires c'.nodes[x].paxos.cval == [] && CollectedAnswers(env, c'.nodes[x].paxos.promises, x, v, done + {a})
    ensures Collecting(env, c', x, v, group, done + {a})
  {
  }

  lemma AnswersGrow(env: Env, q: seq<Phase1bMessage>, x: Endpoint, v: Proposal,
                    group: set<Endpoint>, done: set<Endpoint>, a: Endpoint)
    requires CollectedAnswers(env, q, x, v, done) && a !in done && v != []
    requires x in group && done + {a} <= group
    ensures CollectedAnswers(env, q + [Answer(env, x, v, a)], x, v, done + {a})
    ensures |done| + 1 == |group| ==> Select(q + [Answer(env, x, v, a)], env.N()) == v
  {
    assert |done + {a}| == |done| + 1;
    if |done| + 1 == |group| {
      Everyone(group, done + {a});
      OnlyVoteSelected(env, x, v, q + [Answer(env, x, v, a)]);
    }
  }

  lemma Everyone(group: set<Endpoint>, part: set<Endpoint>)
    requires part <= group && |part| == |group|
    ensures part == group
  {
    if b :| b in group && b !in part {
      SubsetSize(part, group - {b});
    }
  }

  lemma {:induction false} Collect(env: Env, c: Cluster, x: Endpoint, v: Proposal, group: set<Endpoint>,
                                   done: set<Endpoint>)
    returns (c': Cluster)
    requires Reachable(env, c) && Collecting(env, c, x, v, group, done) && v != []
    requires |done| < |group| == env.N() / 2 + 1
    ensures Reachable(env, c') && Calm(env, c, c', {x}) && SameRanks(c, c') && NothingLearned(c, c')
    ensures OrderPacket(env, x, v) in c'.sent
    decreases group - done
  {
    var a := Remaining(group, done);
    c' := CollectOnce(env, c, x, v, group, done, a);
    if |done| + 1 < |group| {
      var mid := c';
      assert |done + {a}| == |done| + 1;
      c' := Collect(env, mid, x, v, group, done + {a});
      CalmTrans(env, c, mid, c', {x});
    }
  }

  lemma CollectStarts(env: Env, c: Cluster, x: Endpoint, v: Proposal, group: set<Endpoint>)
    requires Asking(env, c, x, v, group, group)
    ensures Collecting(env, c, x, v, group, {})
  {
    forall a | a in group ensures AnswerPacket(env, x, v, a) in c.sent {
      assert AnswerStatus(env, c, x, v, a, group);
    }
  }

  lemma AcceptStarts(env: Env, c: Cluster, c': Cluster, x: Endpoint, v: Proposal, group: set<Endpoint>)
    requires Asking(env, c, x, v, group, group) && SameRanks(c, c') && OrderPacket(env, x, v) in c'.sent
    ensures Accepting(env, c', x, v, group, {})
  {
    forall a | a in group ensures AcceptStatus(env, c', x, v, a, {}) {
      assert AnswerStatus(env, c, x, v, a, group);
    }
  }

  /** A coordinator that voted `v` and asks a bare majority `group` of fresh nodes decides `v`. */
  lemma MajorityDecides(env: Env, c: Cluster, x: Endpoint, v: Proposal, group: set<Endpoint>) returns (c': Cluster)
    requires Reachable(env, c) && v != []
    requires Asking(env, c, x, v, group, {}) && |group| == env.N() / 2 + 1
    ensures Reachable(env, c') && (x, v) in c'.decisions && Calm(env, c, c', group)
    ensures forall a :: a in group ==>
              c'.nodes[a].paxos.rnd == env.RankOf(x) && c'.nodes[a].paxos.vrnd == env.RankOf(x)
  {
    var asked := AllAnswer(env, c, x, v, group, {});
    CollectStarts(env, asked, x, v, group);
    var ordered := Collect(env, asked, x, v, group, {});
    AcceptStarts(env, asked, ordered, x, v, group);
    c' := OrderDecided(env, ordered, x, v, group);
    assert group + {x} == group;
  }
}
