/** What every reachable state of the protocol satisfies, proved step by step. */
module ProtocolInvariant {
  import opened Types
  import opened SetFacts
  import opened CoordinatorRule
  import opened Messages
  import opened ClassicPaxos
  import opened FastConsensus
  import opened Protocol

  // ---------------------------------------------------------------- the invariant

  /** Some coordinator ordered `v` at rank `r`. */
  ghost predicate Ordered(env: Env, c: Cluster, r: Rank, v: Proposal) {
    exists x {:trigger OrderPacket(env, x, v)} ::
      x in env.members && r == env.RankOf(x) && OrderPacket(env, x, v) in c.sent
  }

  /** `v` is some node's proposal. */
  ghost predicate Proposed(c: Cluster, v: Proposal) {
    exists a :: a in c.proposals && c.proposals[a] == v
  }

  /** (vr, vv) is a vote `a` can have cast: none, its own fast vote, or an ordered value. */
  ghost predicate VoteOk(env: Env, c: Cluster, a: Endpoint, vr: Rank, vv: Proposal) {
    || (vr == ZERO_RANK && vv == [])
    || (vr == FAST_RANK && a in c.proposals && vv == c.proposals[a])
    || Ordered(env, c, vr, vv)
  }

  /** A node that proposed in time voted, at the fast rank or later. */
  predicate InTime(env: Env, c: Cluster, a: Endpoint, vr: Rank) {
    !env.lateVotes && a in c.proposals ==> RankAtMost(FAST_RANK, vr)
  }

  ghost predicate AcceptorOk(env: Env, c: Cluster, a: Endpoint, p: PaxosState) {
    && p.myAddr == a && p.configurationId == env.configurationId && p.n == env.N()
    && (p.rnd == ZERO_RANK || p.rnd == FAST_RANK || p.rnd.round == 2)
    && RankAtMost(p.vrnd, p.rnd)
    && VoteOk(env, c, a, p.vrnd, p.vval)
    && InTime(env, c, a, p.vrnd)
  }

  /** A collected promise was delivered to `a` and answers its round. */
  predicate CollectedOk(c: Cluster, a: Endpoint, p: PaxosState, m: Phase1bMessage) {
    && Packet(Some(a), Phase1b(m)) in c.sent && Packet(Some(a), Phase1b(m)) in c.taken
    && m.rnd == Some(p.crnd) && m.sender.Some?
  }

  /** The promises behind an order: a majority, and the rule picks exactly the ordered value. */
  predicate QuorumOk(env: Env, c: Cluster, a: Endpoint, p: PaxosState) {
    && a in c.quorums && c.quorums[a] <= p.promises
    && |c.quorums[a]| > env.N() / 2 && Select(c.quorums[a], env.N()) == p.cval
  }

  ghost predicate CoordinatorOk(env: Env, c: Cluster, a: Endpoint, s: FastState) {
    var p := s.paxos;
    && (if s.classicStarted then p.crnd == env.RankOf(a)
        else p.crnd == ZERO_RANK && p.promises == [] && p.cval == [])
    && (forall m :: m in p.promises ==> CollectedOk(c, a, p, m))
    && (!env.duplicatePromises ==> DistinctSenders(p.promises))
    && (p.cval != [] ==> QuorumOk(env, c, a, p))
  }

  ghost predicate LearnerOk(env: Env, c: Cluster, p: PaxosState) {
    forall r, x :: r in p.acceptResponses && x in p.acceptResponses[r]
      ==> AcceptPacket(env, x, r, p.acceptResponses[r][x].endpoints) in c.sent
  }

  /** The counted senders whose proposal was `v`. */
  function Counted(received: set<Endpoint>, c: Cluster, v: Proposal): set<Endpoint> {
    set a | a in received && a in c.proposals && c.proposals[a] == v
  }

  ghost predicate TallyOk(env: Env, c: Cluster, s: FastState) {
    && s.membershipSize == env.N() && s.configurationId == env.configurationId
    && s.votesReceived <= c.proposals.Keys
    && forall v :: Votes(s, v) == |Counted(s.votesReceived, c, v)|
  }

  ghost predicate NodeOk(env: Env, c: Cluster, a: Endpoint, s: FastState) {
    && s.myAddr == a
    && AcceptorOk(env, c, a, s.paxos)
    && CoordinatorOk(env, c, a, s)
    && LearnerOk(env, c, s.paxos)
    && TallyOk(env, c, s)
  }

  ghost predicate PromiseOk(env: Env, c: Cluster, m: Phase1bMessage)
    requires c.nodes.Keys == env.members
  {
    && m.configurationId == env.configurationId
    && m.sender.Some? && m.sender.value in env.members
    && m.rnd.Some? && m.rnd.value.round == 2
    && RankAtMost(m.rnd.value, c.nodes[m.sender.value].paxos.rnd)
    && m.vrnd.Some? && RankLess(m.vrnd.value, m.rnd.value)
    && VoteOk(env, c, m.sender.value, m.vrnd.value, m.vval)
    && InTime(env, c, m.sender.value, m.vrnd.value)
  }

  /** Every packet ever sent is well formed and still agrees with its sender's state. */
  ghost predicate PacketOk(env: Env, c: Cluster, p: Packet)
    requires c.nodes.Keys == env.members
  {
    match p.request
    case Phase1a(m) =>
      && m.sender.Some? && m.sender.value in env.members
      && m == Phase1aMessage(env.configurationId, m.sender, Some(env.RankOf(m.sender.value)))
    case Phase1b(m) => p.to.Some? && PromiseOk(env, c, m)
    case Phase2a(m) =>
      && m.sender.Some? && m.sender.value in env.members
      && p == OrderPacket(env, m.sender.value, m.vval)
      && m.vval != [] && m.vval == c.nodes[m.sender.value].paxos.cval
      && Proposed(c, m.vval)
    case Phase2b(m) =>
      && m.sender.Some? && m.sender.value in env.members && m.rnd.Some?
      && p == AcceptPacket(env, m.sender.value, m.rnd.value, m.endpoints)
      && RankAtMost(m.rnd.value, c.nodes[m.sender.value].paxos.vrnd)
      && Ordered(env, c, m.rnd.value, m.endpoints)
    case FastVote(m) =>
      && m.sender.Some? && m.sender.value in c.proposals
      && p == FastVotePacket(env, m.sender.value, c.proposals[m.sender.value])
    case Other => false
  }

  /** An acceptor promises a rank once, to one coordinator. */
  predicate PromisedOnce(p: Packet, q: Packet) {
    p.request.Phase1b? && q.request.Phase1b?
    && p.request.promise.sender == q.request.promise.sender && p.request.promise.rnd == q.request.promise.rnd
    ==> p == q
  }

  /** A promise reports what its acceptor accepted below it. */
  predicate Reports(q: Request, p: Request) {
    p.Phase2b? && q.Phase1b? && p.accept.sender == q.promise.sender
    && p.accept.rnd.Some? && q.promise.rnd.Some? && RankLess(p.accept.rnd.value, q.promise.rnd.value)
    ==> q.promise.vrnd.Some? && RankAtMost(p.accept.rnd.value, q.promise.vrnd.value)
  }

  predicate Compatible(p: Packet, q: Packet) {
    PromisedOnce(p, q) && Reports(q.request, p.request)
  }

  ghost predicate DecisionOk(env: Env, c: Cluster, v: Proposal) {
    FastChosen(env, c, v) || exists r :: ClassicChosen(env, c, r, v)
  }

  ghost predicate KeysOk(env: Env, c: Cluster) {
    && c.nodes.Keys == env.members
    && c.proposals.Keys <= env.members
    && (forall a :: a in c.proposals ==> c.proposals[a] != [])
  }

  ghost predicate NodesOk(env: Env, c: Cluster)
    requires KeysOk(env, c)
  {
    forall a {:trigger NodeOk(env, c, a, c.nodes[a])} :: a in env.members ==> NodeOk(env, c, a, c.nodes[a])
  }

  ghost predicate PacketsOk(env: Env, c: Cluster)
    requires KeysOk(env, c)
  {
    forall p {:trigger PacketOk(env, c, p)} :: p in c.sent ==> PacketOk(env, c, p)
  }

  predicate PairsOk(c: Cluster) {
    forall p, q {:trigger Compatible(p, q)} :: p in c.sent && q in c.sent ==> Compatible(p, q)
  }

  /** While one coordinator orders per rank, what is decided was chosen. */
  ghost predicate DecisionsOk(env: Env, c: Cluster) {
    env.OneOrderer() ==>
      forall d {:trigger DecisionOk(env, c, d.1)} :: d in c.decisions ==> DecisionOk(env, c, d.1)
  }

  ghost predicate Inv(env: Env, c: Cluster) {
    KeysOk(env, c) && NodesOk(env, c) && PacketsOk(env, c) && PairsOk(c) && DecisionsOk(env, c)
  }

  // ---------------------------------------------------------------- what never goes back

  /** Ranks and the ordered value never go back. */
  predicate Ahead(p: PaxosState, p': PaxosState) {
    && RankAtMost(p.rnd, p'.rnd) && RankAtMost(p.vrnd, p'.vrnd)
    && (p.cval != [] ==> p'.cval == p.cval)
  }

  /** `a` has not seen a classic rank. */
  predicate BeforeClassic(c: Cluster, a: Endpoint)
    requires a in c.nodes
  {
    c.nodes[a].paxos.rnd.round <= 1
  }

  /** Everything that only grows along a step. */
  ghost predicate Grows(env: Env, c: Cluster, c': Cluster) {
    && c.nodes.Keys == env.members && c'.nodes.Keys == env.members
    && c.sent <= c'.sent && c.taken <= c'.taken
    && c.proposals.Keys <= c'.proposals.Keys
    && (forall a {:trigger c'.proposals[a]} :: a in c.proposals ==> c'.proposals[a] == c.proposals[a])
    && (forall a {:trigger BeforeClassic(c, a)} ::
          a in c'.proposals && a !in c.proposals && a in env.members && !env.lateVotes ==> BeforeClassic(c, a))
    && (forall a {:trigger Ahead(c.nodes[a].paxos, c'.nodes[a].paxos)} ::
          a in env.members ==> Ahead(c.nodes[a].paxos, c'.nodes[a].paxos))
  }

  lemma OrderedGrows(env: Env, c: Cluster, c': Cluster, r: Rank, v: Proposal)
    requires Grows(env, c, c') && Ordered(env, c, r, v)
    ensures Ordered(env, c', r, v)
  {
    var x :| x in env.members && r == env.RankOf(x) && OrderPacket(env, x, v) in c.sent;
    assert OrderPacket(env, x, v) in c'.sent;
  }

  lemma ProposedGrows(env: Env, c: Cluster, c': Cluster, v: Proposal)
    requires Grows(env, c, c') && Proposed(c, v)
    ensures Proposed(c', v)
  {
    var a :| a in c.proposals && c.proposals[a] == v;
    assert a in c'.proposals && c'.proposals[a] == v;
  }

  lemma VoteGrows(env: Env, c: Cluster, c': Cluster, a: Endpoint, vr: Rank, vv: Proposal)
    requires Grows(env, c, c') && VoteOk(env, c, a, vr, vv)
    ensures VoteOk(env, c', a, vr, vv)
  {
    if Ordered(env, c, vr, vv) {
      OrderedGrows(env, c, c', vr, vv);
    }
  }

  lemma PacketGrows(env: Env, c: Cluster, c': Cluster, p: Packet)
    requires Grows(env, c, c') && PacketOk(env, c, p)
    ensures PacketOk(env, c', p)
  {
    match p.request
    case Phase1a(m) =>
    case Phase1b(m) =>
      var a := m.sender.value;
      assert Ahead(c.nodes[a].paxos, c'.nodes[a].paxos);
      assert !env.lateVotes && a in c'.proposals && a !in c.proposals ==> BeforeClassic(c, a);
      VoteGrows(env, c, c', a, m.vrnd.value, m.vval);
    case Phase2a(m) =>
      assert Ahead(c.nodes[m.sender.value].paxos, c'.nodes[m.sender.value].paxos);
      ProposedGrows(env, c, c', m.vval);
    case Phase2b(m) =>
      assert Ahead(c.nodes[m.sender.value].paxos, c'.nodes[m.sender.value].paxos);
      OrderedGrows(env, c, c', m.rnd.value, m.endpoints);
    case FastVote(m) =>
    case Other =>
  }

  lemma CountedGrows(env: Env, c: Cluster, c': Cluster, received: set<Endpoint>, v: Proposal)
    requires Grows(env, c, c') && received <= c.proposals.Keys
    ensures Counted(received, c', v) == Counted(received, c, v)
  {
  }

  lemma DecisionGrows(env: Env, c: Cluster, c': Cluster, v: Proposal)
    requires Grows(env, c, c') && DecisionOk(env, c, v)
    ensures DecisionOk(env, c', v)
  {
    if FastChosen(env, c, v) {
      SubsetSize(Backers(c, v), Backers(c', v));
    } else {
      var r :| ClassicChosen(env, c, r, v);
      SubsetSize(Acceptors(env, c, r, v), Acceptors(env, c', r, v));
      assert ClassicChosen(env, c', r, v);
    }
  }

  // A part of a node that a step leaves alone stays well formed; `s` and `s'` are the node
  // before and after.

  lemma AcceptorGrows(env: Env, c: Cluster, c': Cluster, a: Endpoint, p: PaxosState, p': PaxosState)
    requires Grows(env, c, c') && AcceptorOk(env, c, a, p)
    requires a in c'.proposals ==> a in c.proposals
    requires p'.myAddr == p.myAddr && p'.configurationId == p.configurationId && p'.n == p.n
    requires p'.rnd == p.rnd && p'.vrnd == p.vrnd && p'.vval == p.vval
    ensures AcceptorOk(env, c', a, p')
  {
    VoteGrows(env, c, c', a, p.vrnd, p.vval);
  }

  lemma CoordinatorGrows(env: Env, c: Cluster, c': Cluster, a: Endpoint, s: FastState, s': FastState)
    requires Grows(env, c, c') && CoordinatorOk(env, c, a, s)
    requires a in c.quorums ==> a in c'.quorums && c'.quorums[a] == c.quorums[a]
    requires s'.classicStarted == s.classicStarted && s'.paxos.crnd == s.paxos.crnd
    requires s'.paxos.promises == s.paxos.promises && s'.paxos.cval == s.paxos.cval
    ensures CoordinatorOk(env, c', a, s')
  {
  }

  lemma LearnerGrows(env: Env, c: Cluster, c': Cluster, p: PaxosState, p': PaxosState)
    requires Grows(env, c, c') && LearnerOk(env, c, p)
    requires p'.acceptResponses == p.acceptResponses
    ensures LearnerOk(env, c', p')
  {
  }

  lemma TallyGrows(env: Env, c: Cluster, c': Cluster, s: FastState, s': FastState)
    requires Grows(env, c, c') && TallyOk(env, c, s)
    requires s'.membershipSize == s.membershipSize && s'.configurationId == s.configurationId
    requires s'.votesReceived == s.votesReceived && s'.votesPerProposal == s.votesPerProposal
    ensures TallyOk(env, c', s')
  {
    forall v ensures Votes(s', v) == |Counted(s'.votesReceived, c', v)| {
      CountedGrows(env, c, c', s.votesReceived, v);
      assert Votes(s, v) == Votes(s', v);
    }
  }

  /** A step that only touches the acceptor's part of the node. */
  lemma NodeWithAcceptor(env: Env, c: Cluster, c': Cluster, a: Endpoint, s: FastState, s': FastState)
    requires Grows(env, c, c') && NodeOk(env, c, a, s)
    requires a in c.quorums ==> a in c'.quorums && c'.quorums[a] == c.quorums[a]
    requires s' == s.(decided := s'.decided,
                      paxos := s.paxos.(rnd := s'.paxos.rnd, vrnd := s'.paxos.vrnd, vval := s'.paxos.vval))
    requires AcceptorOk(env, c', a, s'.paxos)
    ensures NodeOk(env, c', a, s')
  {
    CoordinatorGrows(env, c, c', a, s, s');
    LearnerGrows(env, c, c', s.paxos, s'.paxos);
    TallyGrows(env, c, c', s, s');
  }

  /** A node whose protocol state a step leaves alone stays well formed. */
  lemma NodeGrows(env: Env, c: Cluster, c': Cluster, a: Endpoint, s: FastState, s': FastState)
    requires Grows(env, c, c') && NodeOk(env, c, a, s)
    requires s' == s.(decided := s'.decided)
    requires a in c'.proposals ==> a in c.proposals
    requires a in c.quorums ==> a in c'.quorums && c'.quorums[a] == c.quorums[a]
    ensures NodeOk(env, c', a, s')
  {
    AcceptorGrows(env, c, c', a, s.paxos, s'.paxos);
    CoordinatorGrows(env, c, c', a, s, s');
    LearnerGrows(env, c, c', s.paxos, s'.paxos);
    TallyGrows(env, c, c', s, s');
  }

  // ---------------------------------------------------------------- assembling a step

  /** One step of `a`: it changes only `a`'s node, proposal and quorum. */
  ghost predicate Local(env: Env, c: Cluster, c': Cluster, a: Endpoint) {
    && a in env.members && a in c'.nodes && c'.nodes == c.nodes[a := c'.nodes[a]]
    && (c'.proposals == c.proposals
        || (a in c'.proposals && a !in c.proposals && c'.proposals == c.proposals[a := c'.proposals[a]]
            && c'.proposals[a] != [] && a in c.nodes && (env.lateVotes || c.nodes[a].paxos.rnd.round <= 1)))
    && (c'.quorums == c.quorums || (a in c'.quorums && c'.quorums == c.quorums[a := c'.quorums[a]]))
    && c.taken <= c'.taken
  }

  lemma LocalGrows(env: Env, c: Cluster, c': Cluster, a: Endpoint)
    requires c.nodes.Keys == env.members && Local(env, c, c', a) && c.sent <= c'.sent
    requires Ahead(c.nodes[a].paxos, c'.nodes[a].paxos)
    ensures Grows(env, c, c')
  {
  }

  /** What a step of `a` that sends `news` must establish; the rest follows from growth. */
  ghost predicate NewsOk(env: Env, c': Cluster, news: set<Packet>)
    requires c'.nodes.Keys == env.members
  {
    && (forall p {:trigger PacketOk(env, c', p)} :: p in news ==> PacketOk(env, c', p))
    && (forall p, q {:trigger Compatible(p, q)} {:trigger Compatible(q, p)} ::
          p in news && q in c'.sent ==> Compatible(p, q) && Compatible(q, p))
  }

  lemma AssembleKeys(env: Env, c: Cluster, c': Cluster, a: Endpoint)
    requires KeysOk(env, c) && Local(env, c, c', a)
    ensures KeysOk(env, c')
  {
  }

  lemma AssembleNodes(env: Env, c: Cluster, c': Cluster, a: Endpoint)
    requires KeysOk(env, c) && NodesOk(env, c) && KeysOk(env, c')
    requires Local(env, c, c', a) && Grows(env, c, c') && NodeOk(env, c', a, c'.nodes[a])
    ensures NodesOk(env, c')
  {
    forall x | x in env.members && x != a ensures NodeOk(env, c', x, c'.nodes[x]) {
      assert NodeOk(env, c, x, c.nodes[x]);
      NodeGrows(env, c, c', x, c.nodes[x], c.nodes[x]);
    }
  }

  lemma AssemblePackets(env: Env, c: Cluster, c': Cluster, news: set<Packet>)
    requires KeysOk(env, c) && PacketsOk(env, c) && KeysOk(env, c')
    requires Grows(env, c, c') && c'.sent == c.sent + news && NewsOk(env, c', news)
    ensures PacketsOk(env, c')
  {
    forall p | p in c'.sent && p !in news ensures PacketOk(env, c', p) {
      assert PacketOk(env, c, p);
      PacketGrows(env, c, c', p);
    }
  }

  lemma AssemblePairs(env: Env, c: Cluster, c': Cluster, news: set<Packet>)
    requires PairsOk(c) && c'.nodes.Keys == env.members
    requires c'.sent == c.sent + news && NewsOk(env, c', news)
    ensures PairsOk(c')
  {
  }

  lemma AssembleDecisions(env: Env, c: Cluster, c': Cluster)
    requires DecisionsOk(env, c) && Grows(env, c, c')
    requires c'.decisions == c.decisions
    ensures DecisionsOk(env, c')
  {
    forall d | env.OneOrderer() && d in c'.decisions ensures DecisionOk(env, c', d.1) {
      assert DecisionOk(env, c, d.1);
      DecisionGrows(env, c, c', d.1);
    }
  }

  lemma Assemble(env: Env, c: Cluster, c': Cluster, a: Endpoint, news: set<Packet>)
    requires Inv(env, c) && Local(env, c, c', a) && Grows(env, c, c')
    requires NodeOk(env, c', a, c'.nodes[a])
    requires c'.sent == c.sent + news && c'.decisions == c.decisions && NewsOk(env, c', news)
    ensures Inv(env, c')
  {
    AssembleKeys(env, c, c', a);
    AssembleNodes(env, c, c', a);
    AssemblePackets(env, c, c', news);
    AssemblePairs(env, c, c', news);
    AssembleDecisions(env, c, c');
  }
}
