/** One configuration's consensus as a state machine: N FastPaxos nodes and a network that may
    lose, delay, reorder and repeat what was sent. */
module Protocol {
  import opened Types
  import opened CoordinatorRule
  import opened Messages
  import opened FastConsensus

  /** What the environment is allowed to do.
      `lateVotes`: a node may propose after it has seen a classic rank.
      `duplicatePromises`: the network may deliver one Phase1b twice. */
  datatype Env = Env(
    configurationId: int, members: set<Endpoint>, nodeIndex: Endpoint -> int,
    lateVotes: bool, duplicatePromises: bool)
  {
    ghost predicate Valid() { members != {} }

    /** `stable_node_index` tells the members apart. It folds a hash to 32 bits, so it need not. */
    ghost predicate ToldApart() {
      forall a, b :: a in members && b in members && nodeIndex(a) == nodeIndex(b) ==> a == b
    }

    /** Enough for one order per rank: a promise counts once, or no two coordinators share a rank. */
    ghost predicate OneOrderer() { duplicatePromises ==> ToldApart() }

    function N(): nat { |members| }

    /** Late votes only among at most four nodes; repeated promises only of one node, or of two
        whose indices differ. */
    ghost predicate Safe() {
      (lateVotes ==> N() <= 4) && (duplicatePromises ==> N() <= 2 && ToldApart())
    }

    /** The one classic rank `a` ever uses: the latch allows a single round 2. */
    function RankOf(a: Endpoint): Rank { Rank(2, nodeIndex(a)) }
  }

  /** A request in flight; `to` is `None` for a broadcast. */
  datatype Packet = Packet(to: Option<Endpoint>, request: Request)

  /** The nodes, everything ever sent, and history: which packets were delivered, what each node
      proposed, the promises behind each order, every decision emitted, and whose fallback timers were
      armed. */
  datatype Cluster = Cluster(
    nodes: map<Endpoint, FastState>,
    sent: set<Packet>,
    taken: set<Packet>,
    proposals: map<Endpoint, Proposal>,
    quorums: map<Endpoint, seq<Phase1bMessage>>,
    decisions: set<(Endpoint, Proposal)>,
    armed: set<Endpoint>)

  datatype Step =
    | ProposeStep(node: Endpoint, value: Proposal)
    | StartClassicStep(node: Endpoint)
    | DeliverStep(node: Endpoint, packet: Packet)
    | StrayStep(node: Endpoint, request: Request)

  function Init(env: Env): Cluster {
    Cluster(map a | a in env.members :: InitFast(a, env.configurationId, env.N()), {}, {}, map[], map[], {}, {})
  }

  /** When a step can happen. Proposals are non-empty and a node proposes once per instance;
      stray requests carry another configuration's id or are not about consensus. */
  predicate Enabled(env: Env, c: Cluster, step: Step) {
    && step.node in env.members && step.node in c.nodes
    && match step
       case ProposeStep(a, v) =>
         && v != [] && a !in c.proposals
         && (env.lateVotes || c.nodes[a].paxos.rnd.round <= 1)
       case StartClassicStep(_) => true
       case DeliverStep(a, p) =>
         && p in c.sent && (p.to == None || p.to == Some(a))
         && (p.request.Phase1b? && !env.duplicatePromises ==> p !in c.taken)
       case StrayStep(_, r) => r.Configuration() != Some(env.configurationId)
  }

  function EmitOne(c: Cluster, a: Endpoint, out: Outgoing): Cluster {
    match out
    case Broadcast(r) => c.(sent := c.sent + {Packet(None, r)})
    case Unicast(b, r) => c.(sent := c.sent + {Packet(Some(b), r)})
    case ScheduleClassicFallback => c.(armed := c.armed + {a})
    case Decision(v) => c.(decisions := c.decisions + {(a, v)})
  }

  function Emit(c: Cluster, a: Endpoint, outs: seq<Outgoing>): Cluster
    decreases outs
  {
    if outs == [] then c else Emit(EmitOne(c, a, outs[0]), a, outs[1..])
  }

  /** Install the node's new state and remember the promises behind a first order. */
  function Install(c: Cluster, a: Endpoint, s: FastState): Cluster
    requires a in c.nodes
  {
    c.(nodes := c.nodes[a := s],
       quorums := if c.nodes[a].paxos.cval == [] && s.paxos.cval != []
                  then c.quorums[a := s.paxos.promises] else c.quorums)
  }

  function After(c: Cluster, a: Endpoint, r: (FastState, seq<Outgoing>)): Cluster
    requires a in c.nodes
  {
    Emit(Install(c, a, r.0), a, r.1)
  }

  function Next(env: Env, c: Cluster, step: Step): Cluster
    requires step.node in c.nodes
  {
    var s := c.nodes[step.node];
    match step
    case ProposeStep(a, v) => After(c.(proposals := c.proposals[a := v]), a, Propose(s, v))
    case StartClassicStep(a) => After(c, a, StartClassicRound(s, env.nodeIndex(a)))
    case DeliverStep(a, p) => After(c.(taken := c.taken + {p}), a, HandleRequest(s, p.request))
    case StrayStep(a, r) => After(c, a, HandleRequest(s, r))
  }

  /** The state after a run, or `None` if some step was not enabled. */
  function Execute(env: Env, steps: seq<Step>): Option<Cluster> {
    if steps == [] then Some(Init(env))
    else
      var c := Execute(env, steps[..|steps| - 1]);
      var step := steps[|steps| - 1];
      if c.Some? && Enabled(env, c.value, step) then Some(Next(env, c.value, step)) else None
  }

  // ---------------------------------------------------------------- chosen values

  function FastVotePacket(env: Env, a: Endpoint, v: Proposal): Packet {
    Packet(None, FastVote(FastRoundPhase2bMessage(env.configurationId, v, Some(a))))
  }

  function OrderPacket(env: Env, a: Endpoint, v: Proposal): Packet {
    Packet(None, Phase2a(Phase2aMessage(env.configurationId, Some(a), Some(env.RankOf(a)), v)))
  }

  function AcceptPacket(env: Env, a: Endpoint, r: Rank, v: Proposal): Packet {
    Packet(None, Phase2b(Phase2bMessage(env.configurationId, Some(r), Some(a), v)))
  }

  /** The nodes that proposed `v`. */
  function Backers(c: Cluster, v: Proposal): set<Endpoint> {
    set a | a in c.proposals && c.proposals[a] == v
  }

  /** The nodes that accepted `v` at classic rank `r`. */
  function Acceptors(env: Env, c: Cluster, r: Rank, v: Proposal): set<Endpoint> {
    set a | a in env.members && AcceptPacket(env, a, r, v) in c.sent
  }

  predicate FastChosen(env: Env, c: Cluster, v: Proposal) {
    |Backers(c, v)| >= FastQuorum(env.N())
  }

  predicate ClassicChosen(env: Env, c: Cluster, r: Rank, v: Proposal) {
    |Acceptors(env, c, r, v)| > env.N() / 2
  }
}
