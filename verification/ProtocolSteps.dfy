/** Every step of the protocol keeps the invariant, and so does every run. */
module ProtocolSteps {
  import opened Types
  import opened SetFacts
  import opened CoordinatorRule
  import opened Messages
  import opened ClassicPaxos
  import opened FastConsensus
  import opened Protocol
  import opened ProtocolInvariant

  lemma EmitNone(c: Cluster, a: Endpoint)
    ensures Emit(c, a, []) == c
  {
  }

  lemma EmitSingle(c: Cluster, a: Endpoint, out: Outgoing)
    ensures Emit(c, a, [out]) == EmitOne(c, a, out)
  {
    assert [out][1..] == [];
    EmitNone(EmitOne(c, a, out), a);
  }

  /** Emitting sends and records, and does nothing else. */
  lemma {:induction false} EmitRecords(c: Cluster, a: Endpoint, outs: seq<Outgoing>)
    ensures c.decisions <= Emit(c, a, outs).decisions && c.sent <= Emit(c, a, outs).sent
    ensures Emit(c, a, outs).taken == c.taken && Emit(c, a, outs).nodes == c.nodes
    ensures Emit(c, a, outs).proposals == c.proposals
    ensures Emit(c, a, outs).armed == c.armed + if ScheduleClassicFallback in outs then {a} else {}
    ensures forall out :: out in outs && out.Decision? ==> (a, out.value) in Emit(c, a, outs).decisions
    decreases outs
  {
    if outs != [] {
      EmitRecords(EmitOne(c, a, outs[0]), a, outs[1..]);
      assert outs == [outs[0]] + outs[1..];
    }
  }

  /** The transition of the node that takes the step. */
  function Transition(env: Env, c: Cluster, step: Step): (FastState, seq<Outgoing>)
    requires step.node in c.nodes
  {
    var s := c.nodes[step.node];
    match step
    case ProposeStep(_, v) => Propose(s, v)
    case StartClassicStep(a) => StartClassicRound(s, env.nodeIndex(a))
    case DeliverStep(_, p) => HandleRequest(s, p.request)
    case StrayStep(_, r) => HandleRequest(s, r)
  }

  /** A step moves one node and forgets nothing; only a proposal step proposes. */
  lemma StepMoves(env: Env, c: Cluster, step: Step)
    requires step.node in c.nodes
    ensures var (c', r) := (Next(env, c, step), Transition(env, c, step));
            && c'.nodes == c.nodes[step.node := r.0] && c.decisions <= c'.decisions && c.sent <= c'.sent
            && c'.proposals == (if step.ProposeStep? then c.proposals[step.node := step.value] else c.proposals)
            && c'.armed == c.armed + (if ScheduleClassicFallback in r.1 then {step.node} else {})
            && forall out :: out in r.1 && out.Decision? ==> (step.node, out.value) in c'.decisions
  {
    var r := Transition(env, c, step);
    match step
    case ProposeStep(a, v) => EmitRecords(Install(c.(proposals := c.proposals[a := v]), a, r.0), a, r.1);
    case DeliverStep(a, p) => EmitRecords(Install(c.(taken := c.taken + {p}), a, r.0), a, r.1);
    case _ => EmitRecords(Install(c, step.node, r.0), step.node, r.1);
  }

  /** A step that sends nothing and changes no more than the `decided` flag. */
  lemma QuietKeeps(env: Env, c: Cluster, c': Cluster, a: Endpoint)
    requires Inv(env, c) && a in env.members
    requires a in c'.nodes && c'.nodes == c.nodes[a := c.nodes[a].(decided := c'.nodes[a].decided)]
    requires c' == c.(nodes := c'.nodes, taken := c'.taken) && c.taken <= c'.taken
    ensures Inv(env, c')
  {
    assert NodeOk(env, c, a, c.nodes[a]);
    LocalGrows(env, c, c', a);
    NodeGrows(env, c, c', a, c.nodes[a], c'.nodes[a]);
    Assemble(env, c, c', a, {});
  }

  lemma ProposeNext(env: Env, c: Cluster, a: Endpoint, v: Proposal)
    requires a in c.nodes && c.nodes[a].myAddr == a && c.nodes[a].configurationId == env.configurationId
    ensures Next(env, c, ProposeStep(a, v))
            == c.(proposals := c.proposals[a := v], nodes := c.nodes[a := Propose(c.nodes[a], v).0],
                  sent := c.sent + {FastVotePacket(env, a, v)}, armed := c.armed + {a})
  {
    var (s', outs) := Propose(c.nodes[a], v);
    var c1 := Install(c.(proposals := c.proposals[a := v]), a, s');
    assert outs[1..] == [ScheduleClassicFallback];
    EmitSingle(EmitOne(c1, a, outs[0]), a, ScheduleClassicFallback);
  }

  lemma ProposeAcceptor(env: Env, c: Cluster, c': Cluster, a: Endpoint, p: PaxosState, v: Proposal)
    requires Grows(env, c, c') && AcceptorOk(env, c, a, p)
    requires c'.proposals == c.proposals[a := v] && a !in c.proposals
    requires env.lateVotes || p.rnd.round <= 1
    ensures AcceptorOk(env, c', a, RegisterFastRoundVote(p, v))
  {
    VoteGrows(env, c, c', a, p.vrnd, p.vval);
  }

  lemma ProposeNode(env: Env, c: Cluster, c': Cluster, a: Endpoint, s: FastState, v: Proposal)
    requires Grows(env, c, c') && NodeOk(env, c, a, s)
    requires c'.proposals == c.proposals[a := v] && c'.quorums == c.quorums && a !in c.proposals
    requires env.lateVotes || s.paxos.rnd.round <= 1
    ensures NodeOk(env, c', a, Propose(s, v).0)
  {
    var s' := Propose(s, v).0;
    ProposeAcceptor(env, c, c', a, s.paxos, v);
    CoordinatorGrows(env, c, c', a, s, s');
    LearnerGrows(env, c, c', s.paxos, s'.paxos);
    TallyGrows(env, c, c', s, s');
  }

  lemma ProposeKeeps(env: Env, c: Cluster, a: Endpoint, v: Proposal)
    requires Inv(env, c) && Enabled(env, c, ProposeStep(a, v))
    ensures Inv(env, Next(env, c, ProposeStep(a, v)))
  {
    assert NodeOk(env, c, a, c.nodes[a]);
    ProposeNext(env, c, a, v);
    var c' := Next(env, c, ProposeStep(a, v));
    LocalGrows(env, c, c', a);
    ProposeNode(env, c, c', a, c.nodes[a], v);
    Assemble(env, c, c', a, {FastVotePacket(env, a, v)});
  }

  lemma StartKeeps(env: Env, c: Cluster, a: Endpoint)
    requires Inv(env, c) && Enabled(env, c, StartClassicStep(a))
    ensures Inv(env, Next(env, c, StartClassicStep(a)))
  {
    var s := c.nodes[a];
    assert NodeOk(env, c, a, s);
    var (s', outs) := StartClassicRound(s, env.nodeIndex(a));
    if s.decided || s.classicStarted {
      QuietKeeps(env, c, Next(env, c, StartClassicStep(a)), a);
    } else {
      var prepare := Packet(None, outs[0].request);
      var c' := c.(nodes := c.nodes[a := s'], sent := c.sent + {prepare});
      EmitSingle(c.(nodes := c.nodes[a := s']), a, outs[0]);
      LocalGrows(env, c, c', a);
      StartNode(env, c, c', a, s, s');
      Assemble(env, c, c', a, {prepare});
    }
  }

  lemma StartNode(env: Env, c: Cluster, c': Cluster, a: Endpoint, s: FastState, s': FastState)
    requires Grows(env, c, c') && NodeOk(env, c, a, s) && c'.proposals == c.proposals
    requires !s.classicStarted && s'.classicStarted
    requires s' == s.(classicStarted := true, paxos := s.paxos.(crnd := env.RankOf(a)))
    ensures NodeOk(env, c', a, s')
  {
    AcceptorGrows(env, c, c', a, s.paxos, s'.paxos);
    LearnerGrows(env, c, c', s.paxos, s'.paxos);
    TallyGrows(env, c, c', s, s');
  }

  /** The promises a coordinator's order rests on. */
  ghost predicate Backing(env: Env, c: Cluster, x: Endpoint, w: Proposal, q: seq<Phase1bMessage>)
    requires c.nodes.Keys == env.members
  {
    && |q| > env.N() / 2
    && (forall m :: m in q ==> m.sender.Some?) && Senders(q) <= env.members
    && (!env.duplicatePromises ==> DistinctSenders(q))
    && Select(q, env.N()) == w
    && forall m {:trigger m in q} :: m in q ==>
         && Packet(Some(x), Phase1b(m)) in c.sent && PromiseOk(env, c, m) && m.rnd == Some(env.RankOf(x))
  }

  lemma OrderIsBacked(env: Env, c: Cluster, x: Endpoint, w: Proposal) returns (q: seq<Phase1bMessage>)
    requires Inv(env, c)
    requires x in env.members && OrderPacket(env, x, w) in c.sent
    ensures w != [] && Backing(env, c, x, w, q)
  {
    assert PacketOk(env, c, OrderPacket(env, x, w));
    assert NodeOk(env, c, x, c.nodes[x]);
    q := c.quorums[x];
    var p := c.nodes[x].paxos;
    forall m | m in q
      ensures Packet(Some(x), Phase1b(m)) in c.sent && PromiseOk(env, c, m) && m.rnd == Some(env.RankOf(x))
    {
      assert m in p.promises;
      assert CollectedOk(c, x, p, m);
      assert PacketOk(env, c, Packet(Some(x), Phase1b(m)));
    }
    forall y | y in Senders(q) ensures y in env.members {
      SendersSound(q, y);
      var i :| 0 <= i < |q| && q[i].sender == Some(y);
      assert q[i] in q;
    }
  }

  /** Among distinct promises of a majority there is one from any other majority of senders. */
  lemma SharedSender(env: Env, c: Cluster, x: Endpoint, v: Proposal, q: seq<Phase1bMessage>, group: set<Endpoint>)
    returns (m: Phase1bMessage)
    requires c.nodes.Keys == env.members && Backing(env, c, x, v, q) && DistinctSenders(q)
    requires group <= env.members && |group| + env.N() / 2 + 1 > env.N()
    ensures m in q && m.sender.Some? && m.sender.value in group
  {
    SendersSize(q);
    var z := Overlap(Senders(q), group, env.members);
    SendersSound(q, z);
    var i :| 0 <= i < |q| && q[i].sender == Some(z);
    m := q[i];
  }

  /** Coordinators that share a rank cannot both order: their majorities would share an acceptor,
      which promises a rank once and to one of them. */
  lemma SameOrderer(env: Env, c: Cluster, x: Endpoint, v: Proposal, y: Endpoint, w: Proposal)
    requires env.OneOrderer() && Inv(env, c) && x in env.members && y in env.members
    requires OrderPacket(env, x, v) in c.sent && OrderPacket(env, y, w) in c.sent && env.RankOf(x) == env.RankOf(y)
    ensures x == y
  {
    if !env.duplicatePromises {
      var q := OrderIsBacked(env, c, x, v);
      var q' := OrderIsBacked(env, c, y, w);
      SendersSize(q');
      var m := SharedSender(env, c, x, v, q, Senders(q'));
      SendersSound(q', m.sender.value);
      var i :| 0 <= i < |q'| && q'[i].sender == m.sender;
      assert q'[i] in q';
      assert Compatible(Packet(Some(x), Phase1b(m)), Packet(Some(y), Phase1b(q'[i])));
    }
  }

  /** One value per classic rank. */
  lemma OneOrderPerRank(env: Env, c: Cluster, r: Rank, v: Proposal, w: Proposal)
    requires env.OneOrderer() && Inv(env, c)
    requires Ordered(env, c, r, v) && Ordered(env, c, r, w)
    ensures v == w
  {
    var x :| x in env.members && r == env.RankOf(x) && OrderPacket(env, x, v) in c.sent;
    var y :| y in env.members && r == env.RankOf(y) && OrderPacket(env, y, w) in c.sent;
    SameOrderer(env, c, x, v, y, w);
    assert PacketOk(env, c, OrderPacket(env, x, v)) && PacketOk(env, c, OrderPacket(env, y, w));
  }

  lemma OrderIsProposed(env: Env, c: Cluster, r: Rank, v: Proposal)
    requires Inv(env, c) && Ordered(env, c, r, v)
    ensures v != [] && Proposed(c, v)
  {
    var x :| x in env.members && r == env.RankOf(x) && OrderPacket(env, x, v) in c.sent;
    assert PacketOk(env, c, OrderPacket(env, x, v));
  }

  lemma VoteIsProposed(env: Env, c: Cluster, a: Endpoint, vr: Rank, vv: Proposal)
    requires Inv(env, c) && VoteOk(env, c, a, vr, vv) && vv != []
    ensures Proposed(c, vv)
  {
    if Ordered(env, c, vr, vv) {
      OrderIsProposed(env, c, vr, vv);
    }
  }

  /** A delivered packet is well formed, and so is the node it reaches. */
  lemma Delivered(env: Env, c: Cluster, a: Endpoint, p: Packet)
    requires Inv(env, c) && Enabled(env, c, DeliverStep(a, p))
    ensures c.nodes.Keys == env.members && PacketOk(env, c, p) && NodeOk(env, c, a, c.nodes[a])
  {
  }

  lemma DeliverNext(env: Env, c: Cluster, a: Endpoint, p: Packet)
    requires a in c.nodes
    ensures var (s', outs) := HandleRequest(c.nodes[a], p.request);
            var c0 := Install(c.(taken := c.taken + {p}), a, s');
            && (outs == [] ==> Next(env, c, DeliverStep(a, p)) == c0)
            && (|outs| == 1 ==> Next(env, c, DeliverStep(a, p)) == EmitOne(c0, a, outs[0]))
  {
    var (s', outs) := HandleRequest(c.nodes[a], p.request);
    if |outs| == 1 {
      assert outs == [outs[0]];
      EmitSingle(Install(c.(taken := c.taken + {p}), a, s'), a, outs[0]);
    }
  }

  lemma Phase1aAcceptor(env: Env, c: Cluster, c': Cluster, a: Endpoint, p: PaxosState, m: Phase1aMessage)
    requires Grows(env, c, c') && AcceptorOk(env, c, a, p) && c'.proposals == c.proposals
    requires m.rank.Some? && m.rank.value.round == 2
    ensures AcceptorOk(env, c', a, OnPhase1a(p, m).0)
  {
    VoteGrows(env, c, c', a, p.vrnd, p.vval);
  }

  lemma Phase1aNode(env: Env, c: Cluster, c': Cluster, a: Endpoint, s: FastState, m: Phase1aMessage)
    requires Grows(env, c, c') && NodeOk(env, c, a, s)
    requires c'.proposals == c.proposals && c'.quorums == c.quorums
    requires m.rank.Some? && m.rank.value.round == 2
    ensures NodeOk(env, c', a, HandleRequest(s, Phase1a(m)).0)
  {
    var s' := HandleRequest(s, Phase1a(m)).0;
    Phase1aAcceptor(env, c, c', a, s.paxos, m);
    NodeWithAcceptor(env, c, c', a, s, s');
  }

  /** A fresh promise is of a rank the acceptor never promised and reports its highest vote. */
  lemma Phase1aNews(env: Env, c: Cluster, c': Cluster, a: Endpoint, reply: Packet, q: Packet)
    requires KeysOk(env, c) && a in env.members
    requires reply.request.Phase1b? && reply.request.promise.sender == Some(a)
    requires reply.request.promise.rnd.Some? && RankLess(c.nodes[a].paxos.rnd, reply.request.promise.rnd.value)
    requires reply.request.promise.vrnd == Some(c.nodes[a].paxos.vrnd)
    requires q == reply || PacketOk(env, c, q)
    ensures Compatible(reply, q) && Compatible(q, reply)
  {
  }

  lemma Phase1aKeeps(env: Env, c: Cluster, a: Endpoint, p: Packet)
    requires Inv(env, c) && Enabled(env, c, DeliverStep(a, p)) && p.request.Phase1a?
    ensures Inv(env, Next(env, c, DeliverStep(a, p)))
  {
    Delivered(env, c, a, p);
    DeliverNext(env, c, a, p);
    var s, m, c' := c.nodes[a], p.request.prepare, Next(env, c, DeliverStep(a, p));
    if HandleRequest(s, p.request).1 == [] {
      QuietKeeps(env, c, c', a);
    } else {
      Phase1aPromises(env, c, c', a, p);
    }
  }

  /** `a` promises. */
  lemma Phase1aPromises(env: Env, c: Cluster, c': Cluster, a: Endpoint, p: Packet)
    requires Inv(env, c) && a in env.members && p in c.sent && PacketOk(env, c, p)
    requires p.request.Phase1a? && NodeOk(env, c, a, c.nodes[a]) && HandleRequest(c.nodes[a], p.request).1 != []
    requires c' == c.(taken := c.taken + {p}, nodes := c.nodes[a := HandleRequest(c.nodes[a], p.request).0],
                      sent := c.sent + {Packet(p.request.prepare.sender,
                                               HandleRequest(c.nodes[a], p.request).1[0].request)})
    ensures Inv(env, c')
  {
    var s, m := c.nodes[a], p.request.prepare;
    var reply := Packet(m.sender, HandleRequest(s, p.request).1[0].request);
    LocalGrows(env, c, c', a);
    Phase1aNode(env, c, c', a, s, m);
    VoteGrows(env, c, c', a, s.paxos.vrnd, s.paxos.vval);
    forall q | q in c'.sent
      ensures Compatible(reply, q) && Compatible(q, reply)
    {
      assert q == reply || PacketOk(env, c, q);
      Phase1aNews(env, c, c', a, reply, q);
    }
    Assemble(env, c, c', a, {reply});
  }

  lemma Phase2aNode(env: Env, c: Cluster, c': Cluster, a: Endpoint, s: FastState, m: Phase2aMessage)
    requires Grows(env, c, c') && NodeOk(env, c, a, s)
    requires c'.proposals == c.proposals && c'.quorums == c.quorums
    requires m.rnd.Some? && m.rnd.value.round == 2 && Ordered(env, c', m.rnd.value, m.vval)
    ensures NodeOk(env, c', a, HandleRequest(s, Phase2a(m)).0)
  {
    var s' := HandleRequest(s, Phase2a(m)).0;
    VoteGrows(env, c, c', a, s.paxos.vrnd, s.paxos.vval);
    CoordinatorGrows(env, c, c', a, s, s');
    LearnerGrows(env, c, c', s.paxos, s'.paxos);
    TallyGrows(env, c, c', s, s');
  }

  /** A fresh acceptance is at no lower rank than any the acceptor promised. */
  lemma Phase2aNews(env: Env, c: Cluster, a: Endpoint, reply: Packet, q: Packet)
    requires KeysOk(env, c) && a in env.members
    requires reply.request.Phase2b? && reply.request.accept.sender == Some(a)
    requires reply.request.accept.rnd.Some? && RankAtMost(c.nodes[a].paxos.rnd, reply.request.accept.rnd.value)
    requires q == reply || PacketOk(env, c, q)
    ensures Compatible(reply, q) && Compatible(q, reply)
  {
  }

  lemma OrderedByPacket(env: Env, c: Cluster, p: Packet)
    requires c.nodes.Keys == env.members && p in c.sent && p.request.Phase2a? && PacketOk(env, c, p)
    ensures p.request.order.rnd.Some? && Ordered(env, c, p.request.order.rnd.value, p.request.order.vval)
  {
    assert OrderPacket(env, p.request.order.sender.value, p.request.order.vval) in c.sent;
  }

  lemma Phase2aKeeps(env: Env, c: Cluster, a: Endpoint, p: Packet)
    requires Inv(env, c) && Enabled(env, c, DeliverStep(a, p)) && p.request.Phase2a?
    ensures Inv(env, Next(env, c, DeliverStep(a, p)))
  {
    Delivered(env, c, a, p);
    DeliverNext(env, c, a, p);
    var s, m, c' := c.nodes[a], p.request.order, Next(env, c, DeliverStep(a, p));
    if HandleRequest(s, p.request).1 == [] {
      QuietKeeps(env, c, c', a);
    } else {
      Phase2aAccepts(env, c, c', a, p);
    }
  }

  /** `a` accepts an order. */
  lemma Phase2aAccepts(env: Env, c: Cluster, c': Cluster, a: Endpoint, p: Packet)
    requires Inv(env, c) && a in env.members && p in c.sent && PacketOk(env, c, p)
    requires p.request.Phase2a? && p.request.order.rnd.Some? && NodeOk(env, c, a, c.nodes[a])
    requires RankAtMost(c.nodes[a].paxos.rnd, p.request.order.rnd.value)
    requires c' == c.(taken := c.taken + {p}, nodes := c.nodes[a := HandleRequest(c.nodes[a], p.request).0],
                      sent := c.sent + {AcceptPacket(env, a, p.request.order.rnd.value, p.request.order.vval)})
    requires Ahead(c.nodes[a].paxos, c'.nodes[a].paxos)
    requires c'.nodes[a].paxos.rnd == p.request.order.rnd.value
    ensures Inv(env, c')
  {
    var m := p.request.order;
    var reply := AcceptPacket(env, a, m.rnd.value, m.vval);
    LocalGrows(env, c, c', a);
    OrderedByPacket(env, c, p);
    OrderedGrows(env, c, c', m.rnd.value, m.vval);
    Phase2aNode(env, c, c', a, c.nodes[a], m);
    forall q | q in c'.sent
      ensures Compatible(reply, q) && Compatible(q, reply)
    {
      assert q == reply || PacketOk(env, c, q);
      Phase2aNews(env, c, a, reply, q);
    }
    Assemble(env, c, c', a, {reply});
  }

  /** All messages counted at one rank name the same value, so a full bucket is a majority for it. */
  lemma BucketChosen(env: Env, c: Cluster, s: PaxosState, r: Rank, v: Proposal)
    requires env.OneOrderer() && Inv(env, c) && LearnerOk(env, c, s) && r in s.acceptResponses
    requires Ordered(env, c, r, v)
    requires |s.acceptResponses[r]| > env.N() / 2
    ensures ClassicChosen(env, c, r, v)
  {
    var bucket := s.acceptResponses[r];
    forall x | x in bucket ensures x in Acceptors(env, c, r, v) {
      var packet := AcceptPacket(env, x, r, bucket[x].endpoints);
      assert PacketOk(env, c, packet);
      OneOrderPerRank(env, c, r, v, bucket[x].endpoints);
    }
    SubsetSize(bucket.Keys, Acceptors(env, c, r, v));
  }

  lemma Phase2bNode(env: Env, c: Cluster, c': Cluster, a: Endpoint, s: FastState, p: Packet)
    requires Grows(env, c, c') && NodeOk(env, c, a, s)
    requires c'.proposals == c.proposals && c'.quorums == c.quorums
    requires p in c.sent && p.request.Phase2b? && PacketOk(env, c, p)
    ensures NodeOk(env, c', a, HandleRequest(s, p.request).0)
  {
    var s' := HandleRequest(s, p.request).0;
    AcceptorGrows(env, c, c', a, s.paxos, s'.paxos);
    CoordinatorGrows(env, c, c', a, s, s');
    Phase2bLearner(env, c, c', s, p);
    TallyGrows(env, c, c', s, s');
  }

  /** Everything counted was sent. */
  lemma Phase2bLearner(env: Env, c: Cluster, c': Cluster, s: FastState, p: Packet)
    requires c.sent <= c'.sent && LearnerOk(env, c, s.paxos)
    requires c.nodes.Keys == env.members && p in c.sent && p.request.Phase2b? && PacketOk(env, c, p)
    ensures LearnerOk(env, c', HandleRequest(s, p.request).0.paxos)
  {
  }

  lemma Phase2bNext(env: Env, c: Cluster, a: Endpoint, p: Packet)
    requires a in c.nodes && p.request.Phase2b?
    ensures var (s', outs) := HandleRequest(c.nodes[a], p.request);
            var c0 := c.(taken := c.taken + {p}, nodes := c.nodes[a := s']);
            Next(env, c, DeliverStep(a, p))
            == if outs == [] then c0 else c0.(decisions := c0.decisions + {(a, p.request.accept.endpoints)})
  {
    DeliverNext(env, c, a, p);
  }

  /** A full bucket of one rank is a classic choice. */
  lemma Phase2bChosen(env: Env, c: Cluster, c0: Cluster, s: FastState, p: Packet)
    requires env.OneOrderer() && Inv(env, c0) && Grows(env, c, c0) && PacketOk(env, c, p) && p.request.Phase2b?
    requires var s' := HandleRequest(s, p.request).0; LearnerOk(env, c0, s'.paxos) && s'.paxos.n == env.N()
    requires HandleRequest(s, p.request).1 != []
    ensures DecisionOk(env, c0, p.request.accept.endpoints)
  {
    var m := p.request.accept;
    OrderedGrows(env, c, c0, m.rnd.value, m.endpoints);
    BucketChosen(env, c0, HandleRequest(s, p.request).0.paxos, m.rnd.value, m.endpoints);
  }

  lemma Phase2bKeeps(env: Env, c: Cluster, a: Endpoint, p: Packet)
    requires Inv(env, c) && Enabled(env, c, DeliverStep(a, p)) && p.request.Phase2b?
    ensures Inv(env, Next(env, c, DeliverStep(a, p)))
  {
    Delivered(env, c, a, p);
    Phase2bNext(env, c, a, p);
    var s := c.nodes[a];
    var (s', outs) := HandleRequest(s, p.request);
    var c0 := c.(taken := c.taken + {p}, nodes := c.nodes[a := s']);
    Phase2bCounted(env, c, a, p, c0);
    if outs != [] {
      if env.OneOrderer() {
        Phase2bChosen(env, c, c0, s, p);
      }
      DecisionKeeps(env, c0, a, p.request.accept.endpoints);
    }
  }

  /** Counting an acceptance, before any decision is recorded. */
  lemma Phase2bCounted(env: Env, c: Cluster, a: Endpoint, p: Packet, c0: Cluster)
    requires Inv(env, c) && a in env.members && a in c.nodes
    requires p in c.sent && p.request.Phase2b? && PacketOk(env, c, p) && NodeOk(env, c, a, c.nodes[a])
    requires c0 == c.(taken := c.taken + {p}, nodes := c.nodes[a := HandleRequest(c.nodes[a], p.request).0])
    ensures Inv(env, c0) && Grows(env, c, c0) && NodeOk(env, c0, a, c0.nodes[a])
  {
    LocalGrows(env, c, c0, a);
    Phase2bNode(env, c, c0, a, c.nodes[a], p);
    Assemble(env, c, c0, a, {});
  }

  lemma DecisionKeeps(env: Env, c: Cluster, a: Endpoint, v: Proposal)
    requires Inv(env, c) && (env.OneOrderer() ==> DecisionOk(env, c, v))
    ensures Inv(env, c.(decisions := c.decisions + {(a, v)}))
  {
    var c' := c.(decisions := c.decisions + {(a, v)});
    DecisionNodes(env, c, c');
    DecisionPackets(env, c, c');
    forall d | env.OneOrderer() && d in c'.decisions ensures DecisionOk(env, c', d.1) {
      assert DecisionOk(env, c, d.1);
      DecisionGrows(env, c, c', d.1);
    }
  }

  lemma DecisionNodes(env: Env, c: Cluster, c': Cluster)
    requires KeysOk(env, c) && NodesOk(env, c) && c' == c.(decisions := c'.decisions)
    ensures NodesOk(env, c')
  {
    forall x | x in env.members ensures NodeOk(env, c', x, c'.nodes[x]) {
      assert NodeOk(env, c, x, c.nodes[x]);
      NodeGrows(env, c, c', x, c.nodes[x], c.nodes[x]);
    }
  }

  lemma DecisionPackets(env: Env, c: Cluster, c': Cluster)
    requires KeysOk(env, c) && PacketsOk(env, c) && c' == c.(decisions := c'.decisions)
    ensures PacketsOk(env, c')
  {
    forall p | p in c'.sent ensures PacketOk(env, c', p) {
      assert PacketOk(env, c, p);
      PacketGrows(env, c, c', p);
    }
  }

  lemma CountedStep(c: Cluster, received: set<Endpoint>, x: Endpoint, v: Proposal)
    requires x in c.proposals && x !in received
    ensures |Counted(received + {x}, c, v)|
            == |Counted(received, c, v)| + if c.proposals[x] == v then 1 else 0
  {
    assert Counted(received + {x}, c, v)
        == Counted(received, c, v) + if c.proposals[x] == v then {x} else {};
  }

  lemma TallyStep(env: Env, c: Cluster, c': Cluster, s: FastState, m: FastRoundPhase2bMessage)
    requires Grows(env, c, c') && TallyOk(env, c, s)
    requires m.configurationId == s.configurationId && !s.decided
    requires m.sender.Some? && m.sender.value !in s.votesReceived
    requires m.sender.value in c.proposals && m.endpoints == c.proposals[m.sender.value]
    ensures TallyOk(env, c', OnFastVote(s, m).0)
  {
    var s' := OnFastVote(s, m).0;
    forall v ensures Votes(s', v) == |Counted(s'.votesReceived, c', v)| {
      CountedGrows(env, c, c', s.votesReceived, v);
      CountedStep(c', s.votesReceived, m.sender.value, v);
      assert Votes(s, v) == |Counted(s.votesReceived, c, v)|;
    }
  }

  lemma FastVoteNode(env: Env, c: Cluster, c': Cluster, a: Endpoint, s: FastState, p: Packet)
    requires Grows(env, c, c') && NodeOk(env, c, a, s)
    requires c'.proposals == c.proposals && c'.quorums == c.quorums
    requires p.request.FastVote? && PacketOk(env, c, p)
    ensures NodeOk(env, c', a, HandleRequest(s, p.request).0)
  {
    var s', m := HandleRequest(s, p.request).0, p.request.vote;
    AcceptorGrows(env, c, c', a, s.paxos, s'.paxos);
    CoordinatorGrows(env, c, c', a, s, s');
    LearnerGrows(env, c, c', s.paxos, s'.paxos);
    if s.decided || m.sender.value in s.votesReceived {
      TallyGrows(env, c, c', s, s');
    } else {
      TallyStep(env, c, c', s, m);
    }
  }

  lemma TallyChosen(env: Env, c: Cluster, s: FastState, v: Proposal)
    requires TallyOk(env, c, s) && Votes(s, v) >= FastQuorum(env.N())
    ensures FastChosen(env, c, v)
  {
    SubsetSize(Counted(s.votesReceived, c, v), Backers(c, v));
  }

  lemma FastVoteKeeps(env: Env, c: Cluster, a: Endpoint, p: Packet)
    requires Inv(env, c) && Enabled(env, c, DeliverStep(a, p)) && p.request.FastVote?
    ensures Inv(env, Next(env, c, DeliverStep(a, p)))
  {
    Delivered(env, c, a, p);
    FastVoteNext(env, c, a, p);
    var (s', outs) := HandleRequest(c.nodes[a], p.request);
    var c0 := c.(taken := c.taken + {p}, nodes := c.nodes[a := s']);
    FastVoteCounted(env, c, a, p, c0);
    if outs != [] {
      FastVoteReaches(c.nodes[a], p.request.vote);
      FastVoteDecides(env, c0, a, s', p.request.vote.endpoints);
    }
  }

  lemma FastVoteNext(env: Env, c: Cluster, a: Endpoint, p: Packet)
    requires a in c.nodes && p.request.FastVote?
    ensures var (s', outs) := HandleRequest(c.nodes[a], p.request);
            var c0 := c.(taken := c.taken + {p}, nodes := c.nodes[a := s']);
            Next(env, c, DeliverStep(a, p))
            == if outs == [] then c0 else c0.(decisions := c0.decisions + {(a, p.request.vote.endpoints)})
  {
    DeliverNext(env, c, a, p);
  }

  lemma FastVoteReaches(s: FastState, m: FastRoundPhase2bMessage)
    requires OnFastVote(s, m).1 != []
    ensures Votes(OnFastVote(s, m).0, m.endpoints) >= FastQuorum(s.membershipSize)
  {
  }

  /** A full tally is a fast choice. */
  lemma FastVoteDecides(env: Env, c: Cluster, a: Endpoint, s: FastState, v: Proposal)
    requires Inv(env, c) && TallyOk(env, c, s) && Votes(s, v) >= FastQuorum(env.N())
    ensures Inv(env, c.(decisions := c.decisions + {(a, v)}))
  {
    TallyChosen(env, c, s, v);
    DecisionKeeps(env, c, a, v);
  }

  /** Counting a vote, before any decision is recorded. */
  lemma FastVoteCounted(env: Env, c: Cluster, a: Endpoint, p: Packet, c0: Cluster)
    requires Inv(env, c) && a in env.members && a in c.nodes
    requires p in c.sent && p.request.FastVote? && PacketOk(env, c, p) && NodeOk(env, c, a, c.nodes[a])
    requires c0 == c.(taken := c.taken + {p}, nodes := c.nodes[a := HandleRequest(c.nodes[a], p.request).0])
    ensures Inv(env, c0) && TallyOk(env, c0, c0.nodes[a])
  {
    LocalGrows(env, c, c0, a);
    FastVoteNode(env, c, c0, a, c.nodes[a], p);
    Assemble(env, c, c0, a, {});
  }

  /** At-most-once delivery and one promise per rank keep the collected senders distinct. */
  lemma DistinctAfter(env: Env, c: Cluster, a: Endpoint, p: Packet)
    requires Inv(env, c) && Enabled(env, c, DeliverStep(a, p)) && p.request.Phase1b?
    requires !env.duplicatePromises && p.request.promise.rnd == Some(c.nodes[a].paxos.crnd)
    ensures DistinctSenders(c.nodes[a].paxos.promises + [p.request.promise])
  {
    var ps, m := c.nodes[a].paxos.promises, p.request.promise;
    assert NodeOk(env, c, a, c.nodes[a]);
    assert PacketOk(env, c, p);
    forall i | 0 <= i < |ps| ensures ps[i].sender.Some? && ps[i].sender != m.sender {
      assert CollectedOk(c, a, c.nodes[a].paxos, ps[i]);
      assert Compatible(Packet(Some(a), Phase1b(ps[i])), p);
    }
  }

  lemma CollectedAfter(env: Env, c: Cluster, c': Cluster, a: Endpoint, p: Packet)
    requires Inv(env, c) && Enabled(env, c, DeliverStep(a, p)) && p.request.Phase1b?
    requires p.request.promise.rnd == Some(c.nodes[a].paxos.crnd)
    requires Grows(env, c, c') && p in c'.taken
    ensures forall q :: q in c.nodes[a].paxos.promises + [p.request.promise]
              ==> CollectedOk(c', a, c.nodes[a].paxos, q)
  {
    Delivered(env, c, a, p);
    forall q | q in c.nodes[a].paxos.promises + [p.request.promise]
      ensures CollectedOk(c', a, c.nodes[a].paxos, q)
    {
      if q in c.nodes[a].paxos.promises {
        assert CollectedOk(c, a, c.nodes[a].paxos, q);
      }
    }
  }

  lemma CoordinatorStep(env: Env, c: Cluster, c': Cluster, a: Endpoint, p: Packet)
    requires Inv(env, c) && Enabled(env, c, DeliverStep(a, p)) && p.request.Phase1b?
    requires p.request.promise.rnd == Some(c.nodes[a].paxos.crnd)
    requires Grows(env, c, c') && p in c'.taken
    requires c'.nodes[a] == HandleRequest(c.nodes[a], p.request).0
    requires c'.quorums == if c.nodes[a].paxos.cval == [] && c'.nodes[a].paxos.cval != []
                           then c.quorums[a := c'.nodes[a].paxos.promises] else c.quorums
    ensures CoordinatorOk(env, c', a, c'.nodes[a])
  {
    Delivered(env, c, a, p);
    CollectedAfter(env, c, c', a, p);
    if !env.duplicatePromises {
      DistinctAfter(env, c, a, p);
    }
    var p' := c'.nodes[a].paxos;
    assert p'.promises == c.nodes[a].paxos.promises + [p.request.promise];
    forall q | q in p'.promises ensures CollectedOk(c', a, p', q) {
      assert CollectedOk(c', a, c.nodes[a].paxos, q);
    }
  }

  lemma ChosenIsProposed(env: Env, c: Cluster, a: Endpoint, p: Packet, chosen: Proposal)
    requires Inv(env, c) && Enabled(env, c, DeliverStep(a, p)) && p.request.Phase1b?
    requires chosen == Select(c.nodes[a].paxos.promises + [p.request.promise], env.N()) && chosen != []
    ensures Proposed(c, chosen)
  {
    var ps, m := c.nodes[a].paxos.promises, p.request.promise;
    assert NodeOk(env, c, a, c.nodes[a]);
    SelectsReportedVote(ps + [m], env.N());
    var q :| q in ps + [m] && q.vval == chosen;
    assert Packet(Some(a), Phase1b(q)) in c.sent by {
      assert PacketOk(env, c, p);
      if q in ps {
        assert CollectedOk(c, a, c.nodes[a].paxos, q);
      }
    }
    assert PacketOk(env, c, Packet(Some(a), Phase1b(q)));
    VoteIsProposed(env, c, q.sender.value, q.vrnd.value, q.vval);
  }

  lemma Phase1bNode(env: Env, c: Cluster, c': Cluster, a: Endpoint, p: Packet)
    requires Inv(env, c) && Enabled(env, c, DeliverStep(a, p)) && p.request.Phase1b?
    requires p.request.promise.rnd == Some(c.nodes[a].paxos.crnd)
    requires Grows(env, c, c') && p in c'.taken && c'.proposals == c.proposals
    requires c'.nodes[a] == HandleRequest(c.nodes[a], p.request).0
    requires c'.quorums == if c.nodes[a].paxos.cval == [] && c'.nodes[a].paxos.cval != []
                           then c.quorums[a := c'.nodes[a].paxos.promises] else c.quorums
    ensures NodeOk(env, c', a, c'.nodes[a])
  {
    Delivered(env, c, a, p);
    CoordinatorStep(env, c, c', a, p);
    var s, s' := c.nodes[a], c'.nodes[a];
    AcceptorGrows(env, c, c', a, s.paxos, s'.paxos);
    LearnerGrows(env, c, c', s.paxos, s'.paxos);
    TallyGrows(env, c, c', s, s');
  }

  lemma Phase1bNews(env: Env, c: Cluster, c': Cluster, a: Endpoint, p: Packet)
    requires Inv(env, c) && Enabled(env, c, DeliverStep(a, p)) && p.request.Phase1b?
    requires Grows(env, c, c') && c'.nodes[a] == HandleRequest(c.nodes[a], p.request).0
    requires HandleRequest(c.nodes[a], p.request).1 != []
    ensures c'.nodes[a].paxos.cval != []
    ensures HandleRequest(c.nodes[a], p.request).1
            == [Broadcast(OrderPacket(env, a, c'.nodes[a].paxos.cval).request)]
    ensures PacketOk(env, c', OrderPacket(env, a, c'.nodes[a].paxos.cval))
  {
    Delivered(env, c, a, p);
    var chosen := c'.nodes[a].paxos.cval;
    ChosenIsProposed(env, c, a, p, chosen);
    ProposedGrows(env, c, c', chosen);
  }

  lemma Phase1bKeeps(env: Env, c: Cluster, a: Endpoint, p: Packet)
    requires Inv(env, c) && Enabled(env, c, DeliverStep(a, p)) && p.request.Phase1b?
    ensures Inv(env, Next(env, c, DeliverStep(a, p)))
  {
    Delivered(env, c, a, p);
    DeliverNext(env, c, a, p);
    if p.request.promise.rnd != Some(c.nodes[a].paxos.crnd) {
      QuietKeeps(env, c, Next(env, c, DeliverStep(a, p)), a);
    } else {
      Phase1bNext(env, c, a, p);
      Phase1bCollects(env, c, Next(env, c, DeliverStep(a, p)), a, p);
    }
  }

  /** What a promise sends, if anything: the order of the value just chosen. */
  function OrdersSent(env: Env, c: Cluster, a: Endpoint, p: Packet): set<Packet>
    requires a in c.nodes
  {
    var (s', outs) := HandleRequest(c.nodes[a], p.request);
    if outs == [] then {} else {OrderPacket(env, a, s'.paxos.cval)}
  }

  lemma Phase1bNext(env: Env, c: Cluster, a: Endpoint, p: Packet)
    requires Inv(env, c) && Enabled(env, c, DeliverStep(a, p)) && p.request.Phase1b?
    requires p.request.promise.rnd == Some(c.nodes[a].paxos.crnd)
    ensures Next(env, c, DeliverStep(a, p))
            == Install(c.(taken := c.taken + {p}), a, HandleRequest(c.nodes[a], p.request).0)
                 .(sent := c.sent + OrdersSent(env, c, a, p))
  {
    Delivered(env, c, a, p);
    DeliverNext(env, c, a, p);
  }

  /** A promise of the current round is collected. */
  lemma Phase1bCollects(env: Env, c: Cluster, c': Cluster, a: Endpoint, p: Packet)
    requires Inv(env, c) && Enabled(env, c, DeliverStep(a, p)) && p.request.Phase1b?
    requires p.request.promise.rnd == Some(c.nodes[a].paxos.crnd)
    requires c' == Install(c.(taken := c.taken + {p}), a, HandleRequest(c.nodes[a], p.request).0)
                     .(sent := c.sent + OrdersSent(env, c, a, p))
    ensures Inv(env, c')
  {
    LocalGrows(env, c, c', a);
    Phase1bNode(env, c, c', a, p);
    if HandleRequest(c.nodes[a], p.request).1 != [] {
      Phase1bNews(env, c, c', a, p);
    }
    Assemble(env, c, c', a, OrdersSent(env, c, a, p));
  }

  lemma StrayKeeps(env: Env, c: Cluster, a: Endpoint, r: Request)
    requires Inv(env, c) && Enabled(env, c, StrayStep(a, r))
    ensures Inv(env, Next(env, c, StrayStep(a, r)))
  {
    assert NodeOk(env, c, a, c.nodes[a]);
    QuietKeeps(env, c, Next(env, c, StrayStep(a, r)), a);
  }

  /** Every step keeps the invariant. */
  lemma StepKeeps(env: Env, c: Cluster, step: Step)
    requires Inv(env, c) && Enabled(env, c, step)
    ensures Inv(env, Next(env, c, step))
  {
    match step
    case ProposeStep(a, v) => ProposeKeeps(env, c, a, v);
    case StartClassicStep(a) => StartKeeps(env, c, a);
    case StrayStep(a, r) => StrayKeeps(env, c, a, r);
    case DeliverStep(a, p) =>
      assert PacketOk(env, c, p);
      match p.request
      case Phase1a(_) => Phase1aKeeps(env, c, a, p);
      case Phase1b(_) => Phase1bKeeps(env, c, a, p);
      case Phase2a(_) => Phase2aKeeps(env, c, a, p);
      case Phase2b(_) => Phase2bKeeps(env, c, a, p);
      case FastVote(_) => FastVoteKeeps(env, c, a, p);
      case Other => assert false;
  }

  /** The invariant holds after every run. */
  lemma {:induction false} RunKeeps(env: Env, steps: seq<Step>)
    ensures var c := Execute(env, steps); c.Some? ==> Inv(env, c.value)
  {
    if steps == [] {
      var c := Init(env);
      forall a | a in env.members ensures NodeOk(env, c, a, c.nodes[a]) {
        forall v ensures Votes(c.nodes[a], v) == |Counted({}, c, v)| {
          assert Counted({}, c, v) == {};
        }
      }
    } else if Execute(env, steps).Some? {
      var front, step := steps[..|steps| - 1], steps[|steps| - 1];
      RunKeeps(env, front);
      StepKeeps(env, Execute(env, front).value, step);
    }
  }

  // ---------------------------------------------------------------- fallback timers

  /** Only a proposal asks for the fallback timer. */
  lemma OnlyProposalsArm(env: Env, c: Cluster, step: Step)
    requires step.node in c.nodes
    ensures ScheduleClassicFallback in Transition(env, c, step).1 <==> step.ProposeStep?
  {
    match step
    case ProposeStep(a, v) =>
      ProposeEffects(c.nodes[a], v);
      assert ScheduleClassicFallback in multiset(Propose(c.nodes[a], v).1);
    case _ =>
  }

  /** In every run the nodes with a fallback timer are those that proposed. */
  lemma {:induction false} TimersArmed(env: Env, steps: seq<Step>)
    ensures var c := Execute(env, steps); c.Some? ==> c.value.armed == c.value.proposals.Keys
  {
    if steps != [] {
      var front, step := steps[..|steps| - 1], steps[|steps| - 1];
      TimersArmed(env, front);
      if Execute(env, steps).Some? {
        OnlyProposalsArm(env, Execute(env, front).value, step);
        StepMoves(env, Execute(env, front).value, step);
      }
    }
  }

  /** When the timer of a node fires, its classic round starts, unless the node has
      decided or has started one. */
  lemma TimerStartsRound(env: Env, c: Cluster, a: Endpoint)
    requires Inv(env, c) && a in env.members
    ensures Enabled(env, c, StartClassicStep(a))
    ensures c.nodes[a].decided || c.nodes[a].classicStarted
            || Packet(None, Phase1a(Phase1aMessage(env.configurationId, Some(a), Some(env.RankOf(a)))))
               in Next(env, c, StartClassicStep(a)).sent
  {
    assert NodeOk(env, c, a, c.nodes[a]);
    var (s', outs) := StartClassicRound(c.nodes[a], env.nodeIndex(a));
    StartsOnce(c.nodes[a], env.nodeIndex(a), 0);
    if outs != [] {
      EmitSingle(Install(c, a, s'), a, outs[0]);
    }
  }
}
