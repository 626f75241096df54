/** Agreement: all decisions of one configuration, fast or classic, carry one proposed value. */
module Agreement {
  import opened Types
  import opened SetFacts
  import opened CoordinatorRule
  import opened Messages
  import opened Protocol
  import opened ProtocolInvariant
  import opened ProtocolSteps

  /** Coordinators with a lower classic rank than `x`: the induction measure. */
  function RanksBelow(env: Env, x: Endpoint): set<Endpoint> {
    set y | y in env.members && env.nodeIndex(y) < env.nodeIndex(x)
  }

  /** A majority of distinct promises meets any set of N / 2 nodes or more; without distinctness
      only the whole membership is sure to be met. */
  lemma SomePromiseFrom(env: Env, c: Cluster, x: Endpoint, w: Proposal, q: seq<Phase1bMessage>, group: set<Endpoint>)
    returns (m: Phase1bMessage)
    requires c.nodes.Keys == env.members && Backing(env, c, x, w, q)
    requires group <= env.members && |group| + env.N() / 2 + 1 > env.N()
    requires env.duplicatePromises ==> group == env.members
    ensures m in q && m.sender.Some? && m.sender.value in group
  {
    if env.duplicatePromises {
      m := q[0];
      SendersSound(q, m.sender.value);
    } else {
      m := SharedSender(env, c, x, w, q, group);
    }
  }

  /** A reported classic vote was ordered by a coordinator of lower rank. */
  lemma LowerCoordinator(env: Env, c: Cluster, x: Endpoint, w: Proposal, q: seq<Phase1bMessage>, m: Phase1bMessage)
    returns (y: Endpoint)
    requires Inv(env, c) && x in env.members && Backing(env, c, x, w, q)
    requires m in q && RankLess(FAST_RANK, m.vrnd.value)
    ensures y in RanksBelow(env, x) && m.vrnd == Some(env.RankOf(y)) && OrderPacket(env, y, m.vval) in c.sent
    ensures RanksBelow(env, y) < RanksBelow(env, x)
  {
    assert Ordered(env, c, m.vrnd.value, m.vval);
    y :| y in env.members && m.vrnd.value == env.RankOf(y) && OrderPacket(env, y, m.vval) in c.sent;
    assert y !in RanksBelow(env, y);
  }

  /** If a classic rank heads the promises and everything ordered at it is `v`, the order is `v`. */
  lemma ClassicHead(env: Env, c: Cluster, x: Endpoint, w: Proposal, q: seq<Phase1bMessage>, m: Phase1bMessage,
                    v: Proposal)
    requires env.OneOrderer() && Inv(env, c) && x in env.members && Backing(env, c, x, w, q)
    requires m in q && m.vrnd == MaxVrnd(q) && RankLess(FAST_RANK, m.vrnd.value) && m.vval == v
    ensures w == v
  {
    assert Ordered(env, c, m.vrnd.value, v);
    OrderIsProposed(env, c, m.vrnd.value, v);
    forall m' | m' in q && m'.vrnd == m.vrnd ensures m'.vval == v {
      assert Ordered(env, c, m.vrnd.value, m'.vval);
      OneOrderPerRank(env, c, m.vrnd.value, v, m'.vval);
    }
    SelectsUnanimousVote(q, env.N(), m.vrnd.value, v);
  }

  lemma HeadMessage(env: Env, c: Cluster, x: Endpoint, w: Proposal, q: seq<Phase1bMessage>, m: Phase1bMessage)
    returns (top: Phase1bMessage)
    requires c.nodes.Keys == env.members && Backing(env, c, x, w, q) && m in q
    ensures top in q && top.vrnd.Some? && top.vrnd == MaxVrnd(q)
    ensures m.vrnd.Some? && RankAtMost(m.vrnd.value, top.vrnd.value)
    ensures forall m' :: m' in q ==> m'.vrnd.Some? && RankAtMost(m'.vrnd.value, top.vrnd.value)
  {
    MaxVrndIsMax(q);
    top :| top in q && top.vrnd == MaxVrnd(q);
  }

  /** A majority of one or two nodes is everyone. */
  lemma MajorityIsAll(group: set<Endpoint>, members: set<Endpoint>)
    requires group <= members && |group| > |members| / 2 && |members| <= 2
    ensures group == members
  {
    if a :| a in members && a !in group {
      SubsetSize(group, members - {a});
    }
  }

  /** Once a majority accepted `v` at a classic rank, every order at that rank or above is `v`. */
  lemma {:induction false} ClassicFixes(env: Env, c: Cluster, r: Rank, v: Proposal, x: Endpoint, w: Proposal)
    requires Inv(env, c) && (env.duplicatePromises ==> env.N() <= 2 && env.ToldApart())
    requires ClassicChosen(env, c, r, v)
    requires x in env.members && OrderPacket(env, x, w) in c.sent && RankAtMost(r, env.RankOf(x))
    ensures w == v
    decreases RanksBelow(env, x)
  {
    var q := OrderIsBacked(env, c, x, w);
    if env.duplicatePromises {
      MajorityIsAll(Acceptors(env, c, r, v), env.members);
    }
    var m := SomePromiseFrom(env, c, x, w, q, Acceptors(env, c, r, v));
    var a := m.sender.value;
    assert PacketOk(env, c, AcceptPacket(env, a, r, v));
    if r == env.RankOf(x) {
      assert Ordered(env, c, r, w) && Ordered(env, c, r, v);
      OneOrderPerRank(env, c, r, w, v);
    } else {
      assert Compatible(AcceptPacket(env, a, r, v), Packet(Some(x), Phase1b(m)));
      var top := HeadMessage(env, c, x, w, q, m);
      var y := LowerCoordinator(env, c, x, w, q, top);
      ClassicFixes(env, c, r, v, y, top.vval);
      ClassicHead(env, c, x, w, q, top, v);
    }
  }

  /** If the fast rank heads the promises, the fast-chosen value is what the rule returns. */
  lemma FastHead(env: Env, c: Cluster, v: Proposal, x: Endpoint, w: Proposal, q: seq<Phase1bMessage>)
    requires Inv(env, c) && !env.lateVotes && !env.duplicatePromises
    requires FastChosen(env, c, v) && v != []
    requires x in env.members && Backing(env, c, x, w, q)
    requires MaxVrnd(q) == Some(FAST_RANK)
    ensures w == v
  {
    MaxVrndIsMax(q);
    forall m | m in q && m.sender.value in Backers(c, v) ensures m.vrnd == Some(FAST_RANK) && m.vval == v {
      assert RankAtMost(m.vrnd.value, FAST_RANK);
    }
    SelectsFastChosen(q, env.members, Backers(c, v), FAST_RANK, v);
  }

  /** Once a fast quorum voted `v` in time, every order is `v`. */
  lemma {:induction false} FastFixes(env: Env, c: Cluster, v: Proposal, x: Endpoint, w: Proposal)
    requires Inv(env, c) && !env.duplicatePromises && !env.lateVotes
    requires FastChosen(env, c, v)
    requires x in env.members && OrderPacket(env, x, w) in c.sent
    ensures w == v
    decreases RanksBelow(env, x)
  {
    var q := OrderIsBacked(env, c, x, w);
    var m := SomePromiseFrom(env, c, x, w, q, Backers(c, v));
    assert RankAtMost(FAST_RANK, m.vrnd.value);
    var top := HeadMessage(env, c, x, w, q, m);
    if top.vrnd.value == FAST_RANK {
      FastHead(env, c, v, x, w, q);
    } else {
      var y := LowerCoordinator(env, c, x, w, q, top);
      FastFixes(env, c, v, y, top.vval);
      ClassicHead(env, c, x, w, q, top, v);
    }
  }

  /** With up to four members the fast quorum is everyone, so late votes do no harm. */
  lemma SmallFastFixes(env: Env, c: Cluster, v: Proposal, w: Proposal)
    requires Inv(env, c) && env.N() <= 4 && FastChosen(env, c, v) && Proposed(c, w)
    ensures w == v
  {
    var a :| a in c.proposals && c.proposals[a] == w;
    if a !in Backers(c, v) {
      SubsetSize(Backers(c, v), env.members - {a});
    }
  }

  lemma FastFastAgree(env: Env, c: Cluster, v: Proposal, w: Proposal)
    requires env.Valid() && Inv(env, c) && FastChosen(env, c, v) && FastChosen(env, c, w)
    ensures v == w && Proposed(c, v)
  {
    var a := Overlap(Backers(c, v), Backers(c, w), env.members);
  }

  /** A classically chosen value was ordered at its rank. */
  lemma ChosenIsOrdered(env: Env, c: Cluster, r: Rank, v: Proposal) returns (x: Endpoint)
    requires Inv(env, c) && ClassicChosen(env, c, r, v)
    ensures x in env.members && r == env.RankOf(x) && OrderPacket(env, x, v) in c.sent && Proposed(c, v)
  {
    var a :| a in Acceptors(env, c, r, v);
    assert PacketOk(env, c, AcceptPacket(env, a, r, v));
    x :| x in env.members && r == env.RankOf(x) && OrderPacket(env, x, v) in c.sent;
    assert PacketOk(env, c, OrderPacket(env, x, v));
  }

  lemma ClassicClassicAgree(env: Env, c: Cluster, r: Rank, v: Proposal, r': Rank, w: Proposal)
    requires Inv(env, c) && env.Safe()
    requires ClassicChosen(env, c, r, v) && ClassicChosen(env, c, r', w)
    ensures v == w
  {
    var x := ChosenIsOrdered(env, c, r, v);
    var y := ChosenIsOrdered(env, c, r', w);
    if RankAtMost(r, r') {
      ClassicFixes(env, c, r, v, y, w);
    } else {
      ClassicFixes(env, c, r', w, x, v);
    }
  }

  lemma FastClassicAgree(env: Env, c: Cluster, v: Proposal, r: Rank, w: Proposal)
    requires env.Valid() && Inv(env, c) && env.Safe()
    requires FastChosen(env, c, v) && ClassicChosen(env, c, r, w)
    ensures v == w
  {
    var x := ChosenIsOrdered(env, c, r, w);
    if env.N() <= 4 {
      SmallFastFixes(env, c, v, w);
    } else {
      FastFixes(env, c, v, x, w);
    }
  }

  // ---------------------------------------------------------------- the theorems

  /** All decisions of every run agree on a value some node proposed, when the environment is
      safe; AgreementExactly shows that no weaker condition will do. */
  lemma AllDecisionsAgree(env: Env, steps: seq<Step>, d: (Endpoint, Proposal), e: (Endpoint, Proposal))
    requires env.Valid() && env.Safe()
    requires Execute(env, steps).Some?
    requires d in Execute(env, steps).value.decisions && e in Execute(env, steps).value.decisions
    ensures d.1 == e.1 && Proposed(Execute(env, steps).value, d.1)
  {
    var c := Execute(env, steps).value;
    RunKeeps(env, steps);
    assert DecisionOk(env, c, d.1) && DecisionOk(env, c, e.1);
    if FastChosen(env, c, d.1) && FastChosen(env, c, e.1) {
      FastFastAgree(env, c, d.1, e.1);
    } else if FastChosen(env, c, d.1) {
      var r :| ClassicChosen(env, c, r, e.1);
      FastClassicAgree(env, c, d.1, r, e.1);
      FastFastAgree(env, c, d.1, d.1);
    } else {
      var r :| ClassicChosen(env, c, r, d.1);
      var x := ChosenIsOrdered(env, c, r, d.1);
      if FastChosen(env, c, e.1) {
        FastClassicAgree(env, c, e.1, r, d.1);
      } else {
        var r' :| ClassicChosen(env, c, r', e.1);
        ClassicClassicAgree(env, c, r, d.1, r', e.1);
      }
    }
  }

  /** Classic Paxos alone agrees however late nodes vote: one order per rank, and once a majority
      accepted `v` at rank `r`, every order of a rank at or above `r` carries `v`. */
  lemma ClassicRoundsAgree(env: Env, steps: seq<Step>, r: Rank, v: Proposal, r': Rank, w: Proposal)
    requires (env.duplicatePromises ==> env.N() <= 2 && env.ToldApart()) && Execute(env, steps).Some?
    requires Ordered(env, Execute(env, steps).value, r, v) && Ordered(env, Execute(env, steps).value, r', w)
    ensures r == r' ==> v == w
    ensures ClassicChosen(env, Execute(env, steps).value, r, v) && RankAtMost(r, r') ==> w == v
  {
    var c := Execute(env, steps).value;
    RunKeeps(env, steps);
    var y :| y in env.members && r' == env.RankOf(y) && OrderPacket(env, y, w) in c.sent;
    if r == r' {
      OneOrderPerRank(env, c, r, v, w);
    }
    if ClassicChosen(env, c, r, v) && RankAtMost(r, r') {
      ClassicFixes(env, c, r, v, y, w);
    }
  }
}
