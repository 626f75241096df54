/** Actors and the protocol: every consensus call of an actor is a step of its configuration's
    protocol, and a decision leaves it at the start of the next configuration's. */
module ActorRuns {
  import opened Types
  import opened Listings
  import opened Messages
  import opened FastConsensus
  import opened Protocol
  import opened ProtocolSteps
  import opened DisagreementRuns
  import opened Alerts
  import opened Service
  import opened D = Deployment

  /** What actor `s` shares with everybody in its configuration. */
  ghost predicate SameConfiguration(s: MembershipService, env: Env)
    reads s.view`allNodes, s.view`identifiers
  {
    && env.members == s.view.allNodes && s.myAddr in env.members
    && env.configurationId == s.Current() && env.nodeIndex == s.nodeIndex
  }

  /** The actor is node `s.myAddr` of the protocol state `c`, and proposed there if it ever did. */
  ghost predicate InRun(s: MembershipService, env: Env, c: Cluster)
    reads s, s.view, s.detector, s.Instance()
  {
    && s.Valid() && SameConfiguration(s, env) && Reachable(env, c)
    && s.fastPaxos != null && s.myAddr in c.nodes && c.nodes[s.myAddr] == s.fastPaxos.State()
    && (s.proposedHere == 0 ==> s.myAddr !in c.proposals)
  }

  /** `o` is on the network of `c`. */
  predicate OnNetwork(c: Cluster, o: Outgoing) {
    match o
    case Broadcast(r) => Packet(None, r) in c.sent
    case Unicast(b, r) => Packet(Some(b), r) in c.sent
    case _ => true
  }

  /** What the effects of a transition do to the network and the decisions. */
  ghost predicate Shows(c: Cluster, c': Cluster, a: Endpoint, s: FastState, outs: seq<Outgoing>) {
    && c'.nodes == c.nodes[a := s] && c'.proposals == c.proposals
    && (forall o :: o in outs ==> OnNetwork(c', o))
    && (forall o :: o in outs && o.Decision? ==> (a, o.value) in c'.decisions)
  }

  lemma EmitShows(c: Cluster, c0: Cluster, a: Endpoint, s: FastState, outs: seq<Outgoing>)
    requires c0.nodes == c.nodes[a := s] && c0.proposals == c.proposals && |outs| <= 1
    ensures Shows(c, if outs == [] then c0 else EmitOne(c0, a, outs[0]), a, s, outs)
  {
  }

  lemma DeliverShows(env: Env, c: Cluster, a: Endpoint, p: Packet)
    requires Reachable(env, c) && Enabled(env, c, DeliverStep(a, p))
    ensures Reachable(env, Next(env, c, DeliverStep(a, p))) && |HandleRequest(c.nodes[a], p.request).1| <= 1
    ensures Shows(c, Next(env, c, DeliverStep(a, p)), a, HandleRequest(c.nodes[a], p.request).0,
                  HandleRequest(c.nodes[a], p.request).1)
  {
    var (s, outs) := HandleRequest(c.nodes[a], p.request);
    StepReaches(env, c, DeliverStep(a, p));
    DeliverNext(env, c, a, p);
    EmitShows(c, Install(c.(taken := c.taken + {p}), a, s), a, s, outs);
  }

  lemma StartShows(env: Env, c: Cluster, a: Endpoint)
    requires Reachable(env, c) && Enabled(env, c, StartClassicStep(a))
    ensures Reachable(env, Next(env, c, StartClassicStep(a)))
    ensures var (s, outs) := StartClassicRound(c.nodes[a], env.nodeIndex(a));
            |outs| <= 1 && !Decides(outs) && Shows(c, Next(env, c, StartClassicStep(a)), a, s, outs)
  {
    var (s, outs) := StartClassicRound(c.nodes[a], env.nodeIndex(a));
    StepReaches(env, c, StartClassicStep(a));
    if outs != [] {
      assert outs == [outs[0]];
      EmitSingle(Install(c, a, s), a, outs[0]);
    }
    EmitShows(c, Install(c, a, s), a, s, outs);
  }

  lemma ProposeShows(env: Env, c: Cluster, a: Endpoint, v: Proposal)
    requires Reachable(env, c) && Enabled(env, c, ProposeStep(a, v))
    ensures var (s, outs) := Propose(c.nodes[a], v);
            var c' := Next(env, c, ProposeStep(a, v));
            && Reachable(env, c') && c'.nodes == c.nodes[a := s] && a in c'.armed
            && forall o :: o in outs ==> OnNetwork(c', o)
  {
    ReachableNamed(env, c, a);
    ProposeNext(env, c, a, v);
    StepReaches(env, c, ProposeStep(a, v));
  }

  /** The actor after a step with effects `outs` that took its node of `c` to that of `c'`: still
      that node and, unless it decided, everything it sends is on the network; if it decided, it
      applied the decision and is a fresh node of the next configuration. */
  ghost predicate Followed(s: MembershipService, env: Env, c': Cluster, before: VC.Service,
                           outs: seq<Outgoing>, sent: seq<Outgoing>)
    reads s, s.view, s.detector, s.Instance()
  {
    if Decides(outs) then
      && s.Valid() && outs == [outs[0]] && outs[0].Decision? && sent == []
      && (s.myAddr, outs[0].value) in c'.decisions
      && s.State() == VC.Decide(before, outs[0].value) && s.Started() && s.proposedHere == 0
    else
      InRun(s, env, c') && forall o :: o in sent ==> OnNetwork(c', o)
  }

  /** An actor at the start of a configuration is a node of its protocol's initial state. */
  lemma StartsInRun(s: MembershipService, env: Env)
    requires s.Valid() && s.Started() && SameConfiguration(s, env)
    ensures InRun(s, env, Init(env))
  {
    assert Execute(env, []) == Some(Init(env));
  }

  /** A message handed to an actor is a delivery to its node. */
  method DeliverInRun(s: MembershipService, request: Request, ghost env: Env, ghost c: Cluster,
                      ghost to: Option<Endpoint>)
    returns (sent: seq<Outgoing>)
    requires InRun(s, env, c) && s.lifecycle != ShuttingDown
    requires Enabled(env, c, DeliverStep(s.myAddr, Packet(to, request)))
    requires s.Known(HandleRequest(s.fastPaxos.State(), request).1)
    modifies s, s.view, s.detector, s.Instance()
    ensures var p := Packet(to, request);
            Followed(s, env, Next(env, c, DeliverStep(s.myAddr, p)), old(s.State()),
                     old(HandleRequest(s.fastPaxos.State(), request).1), sent)
    ensures !Decides(old(HandleRequest(s.fastPaxos.State(), request).1)) ==> s.State() == old(s.State())
  {
    ghost var (after, outs) := HandleRequest(s.fastPaxos.State(), request);
    DeliverShows(env, c, s.myAddr, Packet(to, request));
    AtMostOne(s.State(), outs);
    sent := s.OnConsensusMessage(request);
  }

  /** The actor's fallback timer is the start of its node's classic round. */
  method TimerInRun(s: MembershipService, ghost env: Env, ghost c: Cluster) returns (sent: seq<Outgoing>)
    requires InRun(s, env, c)
    modifies s, s.view, s.detector, s.Instance()
    ensures InRun(s, env, Next(env, c, StartClassicStep(s.myAddr)))
    ensures forall o :: o in sent ==> OnNetwork(Next(env, c, StartClassicStep(s.myAddr)), o)
    ensures s.view.Abstract() == old(s.view.Abstract())
  {
    ghost var (after, outs) := StartClassicRound(s.fastPaxos.State(), s.nodeIndex(s.myAddr));
    StartShows(env, c, s.myAddr);
    AtMostOne(s.State(), outs);
    sent := s.OnStartClassicRound();
  }

  /** A batch of alerts is no step, or the one proposal of the actor's node, whose fallback timer is
      then armed. */
  method VoteInRun(s: MembershipService, batch: seq<AlertMessage>, ghost env: Env, ghost c: Cluster)
    returns (sent: seq<Outgoing>, vote: Proposal)
    requires InRun(s, env, c) && (env.lateVotes || s.fastPaxos.State().paxos.rnd.round <= 1)
    modifies s, s.view, s.detector, s.Instance()
    ensures if vote == [] then sent == [] && InRun(s, env, c)
            else
              && Enabled(env, c, ProposeStep(s.myAddr, vote))
              && InRun(s, env, Next(env, c, ProposeStep(s.myAddr, vote)))
              && forall o :: o in sent ==> OnNetwork(Next(env, c, ProposeStep(s.myAddr, vote)), o)
    ensures vote != [] ==>
              && s.pendingFallback && s.myAddr in Next(env, c, ProposeStep(s.myAddr, vote)).armed
              && Voted(sent, env.configurationId, vote, s.myAddr)
    ensures s.view.Abstract() == old(s.view.Abstract()) && Distinct(vote)
  {
    ghost var found;
    sent, vote, found := s.OnBatchedAlerts(batch);
    if vote != [] {
      ProposeShows(env, c, s.myAddr, vote);
    }
  }

  /** A transition has at most one effect that is not a timer, so a decision comes alone. */
  lemma AtMostOne(before: VC.Service, outs: seq<Outgoing>)
    requires |outs| <= 1
    ensures Decides(outs) ==>
              outs == [outs[0]] && outs[0].Decision? && NotDecisions(outs) == []
              && DecideEach(before, outs) == VC.Decide(before, outs[0].value)
    ensures !Decides(outs) ==> NotDecisions(outs) == outs && DecideEach(before, outs) == before
  {
    if outs != [] {
      assert outs[1..] == [] && NotDecisions(outs[1..]) == [];
    }
  }

  // ---------------------------------------------------------------- actors in a deployment

  /** The actor is the replica `s.myAddr` of the deployment `w`. */
  ghost predicate Plays(s: MembershipService, rules: Rules, w: World)
    reads s, s.view, s.detector, s.Instance()
  {
    && Sound(rules, w) && Placed(w, s.myAddr) && rules.idOf == s.view.idOf
    && var k := w.replicas[s.myAddr].At();
    && s.view.Abstract() == w.views[k] && InRun(s, EnvAt(rules, w, k), w.clusters[k])
  }

  /** What other replicas and joiners do leaves the actor where it is. */
  lemma OthersAct(s: MembershipService, rules: Rules, w: World, action: Action)
    requires Plays(s, rules, w) && Can(rules, w, action) && s.myAddr != Actor(action)
    ensures Plays(s, rules, Done(rules, w, action))
  {
    ActionKeeps(rules, w, action);
    Elsewhere(rules, w, action, s.myAddr);
    assert StageOk(rules, Done(rules, w, action), w.replicas[s.myAddr].At());
  }

  /** What the actor's own step leaves when it decides nothing. */
  lemma OwnStep(s: MembershipService, rules: Rules, w: World, action: Action)
    requires Sound(rules, w) && Placed(w, s.myAddr) && rules.idOf == s.view.idOf
    requires action.Act? && action.step.node == s.myAddr && Can(rules, w, action)
    requires VerdictOf(rules, w, action).None?
    requires var k := w.replicas[s.myAddr].At();
             && s.view.Abstract() == w.views[k]
             && InRun(s, EnvAt(rules, w, k), Next(EnvAt(rules, w, k), w.clusters[k], action.step))
    ensures Plays(s, rules, Done(rules, w, action))
  {
    ActionKeeps(rules, w, action);
    SteppedPlaced(rules, w, action.step);
  }

  /** What the actor knows of joiners. */
  function Learnt(s: MembershipService): VC.Round
    reads s`joinerUuid, s`joinerMetadata
  {
    VC.Round(s.joinerUuid, s.joinerMetadata, [])
  }

  /** The action of delivering a message to the actor, and the protocol step in it. */
  function Delivery(s: MembershipService, p: Packet): Action
    reads s`joinerUuid, s`joinerMetadata
  {
    Act(DeliverStep(s.myAddr, p), Learnt(s))
  }

  /** An actor that is a fresh node of its configuration is the replica there. */
  lemma FreshPlays(s: MembershipService, rules: Rules, w: World)
    requires s.Valid() && s.Started() && s.proposedHere == 0 && s.myAddr in s.view.allNodes
    requires rules.idOf == s.view.idOf && rules.nodeIndex == s.nodeIndex
    requires Sound(rules, w) && Landed(rules, w, s.myAddr, s.view.Abstract())
    ensures Plays(s, rules, w)
  {
    assert StageOk(rules, w, w.replicas[s.myAddr].At());
  }

  /** The action `action` of the replica `a` starts from the configuration's state. */
  ghost predicate Acts(rules: Rules, w: World, a: Endpoint, action: Action, before: VC.Service) {
    && Sound(rules, w) && Placed(w, a) && action.Act? && action.step.node == a && Can(rules, w, action)
    && before.view == w.views[w.replicas[a].At()] && before.joinerUuid == action.learnt.uuids
  }

  /** The actor after its step, deciding or not. */
  lemma WentOn(s: MembershipService, rules: Rules, w: World, action: Action, before: VC.Service, sent: seq<Outgoing>)
    requires Acts(rules, w, s.myAddr, action, before) && rules.idOf == s.view.idOf && rules.nodeIndex == s.nodeIndex
    requires var (env, c) := (EnvAt(rules, w, w.replicas[s.myAddr].At()), w.clusters[w.replicas[s.myAddr].At()]);
             var outs := Transition(env, c, action.step).1;
             && Followed(s, env, Next(env, c, action.step), before, outs, sent)
             && (outs != [] && outs[0].Decision? ==> Decides(outs))
             && (!Decides(outs) ==> s.view.Abstract() == before.view)
    ensures s.myAddr in s.view.allNodes ==> Plays(s, rules, Done(rules, w, action))
  {
    var outs := Transition(EnvAt(rules, w, w.replicas[s.myAddr].At()), w.clusters[w.replicas[s.myAddr].At()],
                           action.step).1;
    if !Decides(outs) {
      OwnStep(s, rules, w, action);
    } else if s.myAddr in s.view.allNodes {
      ActionKeeps(rules, w, action);
      DeciderLands(rules, w, action, before);
      FreshPlays(s, rules, Done(rules, w, action));
    }
  }

  /** A message handed to an actor of a deployment is a delivery there. If the actor decides, it goes
      on to the next configuration, which it shares with all that decided before, unless the decision
      removed it. */
  method DeliverInDeployment(s: MembershipService, request: Request, ghost rules: Rules, ghost w: World,
                             ghost to: Option<Endpoint>)
    returns (sent: seq<Outgoing>)
    requires Plays(s, rules, w) && s.lifecycle != ShuttingDown && Can(rules, w, Delivery(s, Packet(to, request)))
    requires s.Known(HandleRequest(s.fastPaxos.State(), request).1)
    modifies s, s.view, s.detector, s.Instance()
    ensures s.myAddr in s.view.allNodes ==> Plays(s, rules, old(Done(rules, w, Delivery(s, Packet(to, request)))))
  {
    ghost var action, before := Delivery(s, Packet(to, request)), s.State();
    ghost var k := w.replicas[s.myAddr].At();
    AtMostOne(before, HandleRequest(s.fastPaxos.State(), request).1);
    sent := DeliverInRun(s, request, EnvAt(rules, w, k), w.clusters[k], to);
    WentOn(s, rules, w, action, before, sent);
  }

  /** The fallback timer of an actor of a deployment is a step there. */
  method TimerInDeployment(s: MembershipService, ghost rules: Rules, ghost w: World) returns (sent: seq<Outgoing>)
    requires Plays(s, rules, w) && Can(rules, w, Act(StartClassicStep(s.myAddr), Learnt(s)))
    modifies s, s.view, s.detector, s.Instance()
    ensures Plays(s, rules, old(Done(rules, w, Act(StartClassicStep(s.myAddr), Learnt(s)))))
  {
    ghost var action := Act(StartClassicStep(s.myAddr), Learnt(s));
    ghost var k := w.replicas[s.myAddr].At();
    sent := TimerInRun(s, EnvAt(rules, w, k), w.clusters[k]);
    QuietStep(rules, w, action.step, action.learnt);
    OwnStep(s, rules, w, action);
  }

  /** A batch of alerts is nothing there, or the actor's one proposal in its configuration. */
  method VoteInDeployment(s: MembershipService, batch: seq<AlertMessage>, ghost rules: Rules, ghost w: World)
    returns (sent: seq<Outgoing>, vote: Proposal)
    requires Plays(s, rules, w) && (rules.lateVotes || s.fastPaxos.State().paxos.rnd.round <= 1)
    requires EnvAt(rules, w, w.replicas[s.myAddr].At()).Safe()
    modifies s, s.view, s.detector, s.Instance()
    ensures var action := Act(ProposeStep(s.myAddr, vote), old(Learnt(s)));
            if vote == [] then Plays(s, rules, w)
            else Can(rules, w, action) && Plays(s, rules, Done(rules, w, action))
  {
    ghost var learnt := Learnt(s);
    ghost var k := w.replicas[s.myAddr].At();
    sent, vote := VoteInRun(s, batch, EnvAt(rules, w, k), w.clusters[k]);
    if vote != [] {
      QuietStep(rules, w, ProposeStep(s.myAddr, vote), learnt);
      OwnStep(s, rules, w, Act(ProposeStep(s.myAddr, vote), learnt));
    }
  }

  /** An actor that joined by the reply of a replica is a replica of its own. */
  lemma JoinerPlays(s: MembershipService, rules: Rules, w: World, via: Endpoint)
    requires Sound(rules, w) && Can(rules, w, Boot(s.myAddr, via, s.metadata))
    requires s.Valid() && s.Started() && s.proposedHere == 0
    requires s.view.Abstract() == w.replicas[via].Now().view
    requires rules.idOf == s.view.idOf && rules.nodeIndex == s.nodeIndex
    ensures Plays(s, rules, Done(rules, w, Boot(s.myAddr, via, s.metadata)))
  {
    ActionKeeps(rules, w, Boot(s.myAddr, via, s.metadata));
    JoinerLands(rules, w, Boot(s.myAddr, via, s.metadata));
    FreshPlays(s, rules, Done(rules, w, Boot(s.myAddr, via, s.metadata)));
  }
}
