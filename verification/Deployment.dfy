/** A whole deployment: every replica in a configuration of its own pace, one protocol state for each
    configuration, joiners that boot from the reply of a member. Whatever the replicas do, those in
    the same configuration have the same view, and each configuration decides once. */
module Deployment {
  import opened Types
  import opened Listings
  import opened Messages
  import opened FastConsensus
  import opened Protocol
  import opened ProtocolSteps
  import opened DisagreementRuns
  import opened Membership
  import opened Convergence
  import opened VC = ViewChange
  import Agreement

  /** What all replicas share: the hash behind indices and ids, and what the network may do. */
  datatype Rules = Rules(
    nodeIndex: Endpoint -> int, idOf: Membership -> int, lateVotes: bool, duplicatePromises: bool)

  function EnvFor(rules: Rules, v: Membership): Env {
    Env(rules.idOf(v), v.members, rules.nodeIndex, rules.lateVotes, rules.duplicatePromises)
  }

  /** A replica: the configuration it started in, its state there, and its rounds since. */
  datatype Replica = Replica(from: nat, start: Service, rounds: seq<Round>)
  {
    /** The configuration it is in. */
    function At(): nat { from + |rounds| }

    function Now(): Service { Replay(start, rounds) }
  }

  /** The views of all configurations so far, the protocol state of each, the round that ended each
      but the last, as the first replica to leave it lived it, and the replicas. */
  datatype World = World(
    views: seq<Membership>, clusters: seq<Cluster>, chosen: seq<Round>, replicas: map<Endpoint, Replica>)

  datatype Action =
    /** A replica takes a protocol step; should it decide, `learnt` is what it knows of joiners. */
    | Act(step: Step, learnt: Round)
    /** A joiner boots from the reply of the member `via`. */
    | Boot(joiner: Endpoint, via: Endpoint, metadata: map<Endpoint, Metadata>)

  function Genesis(rules: Rules, v: Membership, starts: map<Endpoint, Service>): World {
    World([v], [Init(EnvFor(rules, v))], [], map a | a in starts :: Replica(0, starts[a], []))
  }

  /** A service state that knows nothing but its view. */
  function Bare(v: Membership): Service { Service(v, map[], map[], map[]) }

  /** A decision among the effects of a transition; it is the only one. */
  function Verdict(outs: seq<Outgoing>): Option<Proposal> {
    if outs != [] && outs[0].Decision? then Some(outs[0].value) else None
  }

  function Lived(learnt: Round, v: Proposal): Round { learnt.(proposal := v) }

  // ---------------------------------------------------------------- actions

  predicate Shaped(w: World) {
    |w.views| == |w.clusters| == |w.chosen| + 1
  }

  /** `a` is a replica in a configuration of which it is a member. */
  predicate Placed(w: World, a: Endpoint) {
    && Shaped(w) && a in w.replicas && w.replicas[a].At() < |w.views|
    && a in w.clusters[w.replicas[a].At()].nodes
  }

  function EnvAt(rules: Rules, w: World, k: nat): Env
    requires k < |w.views|
  {
    EnvFor(rules, w.views[k])
  }

  function VerdictOf(rules: Rules, w: World, action: Action): Option<Proposal>
    requires action.Act? && Placed(w, action.step.node)
  {
    var k := w.replicas[action.step.node].At();
    Verdict(Transition(EnvAt(rules, w, k), w.clusters[k], action.step).1)
  }

  /** When an action can happen. The configuration's environment is safe; proposals list endpoints
      once, as votes do; and a replica that applies a decision another one applied before admits the
      same joiners. */
  ghost predicate Can(rules: Rules, w: World, action: Action) {
    match action
    case Act(step, learnt) =>
      && Placed(w, step.node)
      && var k := w.replicas[step.node].At();
      && Enabled(EnvAt(rules, w, k), w.clusters[k], step) && EnvAt(rules, w, k).Safe()
      && (step.ProposeStep? ==> Distinct(step.value))
      && (VerdictOf(rules, w, action).Some? && k < |w.chosen| ==>
            SameAdmissions(Informed(Bare(w.views[k]), w.chosen[k]), Informed(w.replicas[step.node].Now(), learnt),
                           VerdictOf(rules, w, action).value))
    case Boot(joiner, via, _) =>
      && via in w.replicas && joiner in w.replicas[via].Now().view.members
      && (joiner in w.replicas ==> w.replicas[joiner].At() < w.replicas[via].At())
  }

  /** The protocol step alone. */
  function Stepped(rules: Rules, w: World, step: Step): World
    requires Placed(w, step.node)
  {
    var k := w.replicas[step.node].At();
    w.(clusters := w.clusters[k := Next(EnvAt(rules, w, k), w.clusters[k], step)])
  }

  /** The replica `a` applies a decision; the first to do so opens the next configuration. */
  function Advanced(rules: Rules, w: World, a: Endpoint, round: Round): World
    requires Placed(w, a)
  {
    var r := w.replicas[a];
    var r' := r.(rounds := r.rounds + [round]);
    var w' := w.(replicas := w.replicas[a := r']);
    if r'.At() < |w.views| then w'
    else
      var v := r'.Now().view;
      w'.(views := w.views + [v], clusters := w.clusters + [Init(EnvFor(rules, v))], chosen := w.chosen + [round])
  }

  function Done(rules: Rules, w: World, action: Action): World
    requires action.Act? ==> Placed(w, action.step.node)
    requires action.Boot? ==> action.via in w.replicas
  {
    match action
    case Act(step, learnt) =>
      var w' := Stepped(rules, w, step);
      var verdict := VerdictOf(rules, w, action);
      if verdict.None? then w'
      else
        assert Placed(w', step.node) by { StepMoves(EnvAt(rules, w, w.replicas[step.node].At()),
                                                    w.clusters[w.replicas[step.node].At()], step); }
        Advanced(rules, w', step.node, Lived(learnt, verdict.value))
    case Boot(joiner, via, metadata) =>
      var r := w.replicas[via];
      w.(replicas := w.replicas[joiner := Replica(r.At(), Service(r.Now().view, metadata, map[], map[]), [])])
  }

  // ---------------------------------------------------------------- the invariant

  /** The protocol state of configuration `k` is one of its runs. */
  ghost predicate StageOk(rules: Rules, w: World, k: nat)
    requires Shaped(w) && k < |w.views|
  {
    var c := w.clusters[k];
    && Reachable(EnvAt(rules, w, k), c) && c.nodes.Keys == w.views[k].members
    && (forall a :: a in c.proposals ==> Distinct(c.proposals[a]))
    && (c.decisions != {} ==> EnvAt(rules, w, k).Safe())
  }

  /** Configuration `k` ended with a decision made in it, which led to the next view. */
  ghost predicate EndOk(w: World, k: nat)
    requires Shaped(w) && k < |w.chosen|
  {
    && Distinct(w.chosen[k].proposal)
    && (exists a :: (a, w.chosen[k].proposal) in w.clusters[k].decisions)
    && w.views[k + 1] == Decide(Informed(Bare(w.views[k]), w.chosen[k]), w.chosen[k].proposal).view
  }

  /** A replica has the view of its configuration and applied only decisions of its own. */
  ghost predicate ReplicaOk(w: World, a: Endpoint, r: Replica)
    requires Shaped(w)
  {
    r.At() < |w.views| && r.Now().view == w.views[r.At()] && RoundsOk(w, a, r)
  }

  predicate RoundsOk(w: World, a: Endpoint, r: Replica)
    requires r.At() <= |w.clusters|
  {
    forall j {:trigger RoundOk(w, a, r, j)} :: 0 <= j < |r.rounds| ==> RoundOk(w, a, r, j)
  }

  predicate RoundOk(w: World, a: Endpoint, r: Replica, j: nat)
    requires r.At() <= |w.clusters| && j < |r.rounds|
  {
    (a, r.rounds[j].proposal) in w.clusters[r.from + j].decisions
  }

  /** The node `a` of configuration `k` has done nothing yet. */
  predicate Idle(rules: Rules, w: World, a: Endpoint, k: nat)
    requires k < |w.views| == |w.clusters|
  {
    && a in w.clusters[k].nodes && a !in w.clusters[k].proposals
    && w.clusters[k].nodes[a] == InitFast(a, EnvAt(rules, w, k).configurationId, EnvAt(rules, w, k).N())
  }

  /** In a configuration it has not reached, a node is untouched. */
  ghost predicate Untouched(rules: Rules, w: World, a: Endpoint, k: nat)
    requires Shaped(w) && k < |w.views|
  {
    a in w.views[k].members && (a in w.replicas ==> w.replicas[a].At() < k) ==> Idle(rules, w, a, k)
  }

  ghost predicate Sound(rules: Rules, w: World) {
    && Shaped(w)
    && (forall k :: 0 <= k < |w.views| ==> StageOk(rules, w, k))
    && (forall k :: 0 <= k < |w.chosen| ==> EndOk(w, k))
    && (forall a :: a in w.replicas ==> ReplicaOk(w, a, w.replicas[a]))
    && (forall a, k :: 0 <= k < |w.views| ==> Untouched(rules, w, a, k))
  }

  /** Everybody starts with the same view. */
  lemma GenesisSound(rules: Rules, v: Membership, starts: map<Endpoint, Service>)
    requires forall a :: a in starts ==> starts[a].view == v
    requires starts.Keys == v.members
    ensures Sound(rules, Genesis(rules, v, starts))
  {
    assert Execute(EnvFor(rules, v), []) == Some(Init(EnvFor(rules, v)));
  }

  // ---------------------------------------------------------------- a protocol step

  lemma VerdictIsDecided(rules: Rules, w: World, action: Action)
    requires action.Act? && Placed(w, action.step.node) && VerdictOf(rules, w, action).Some?
    ensures var k := w.replicas[action.step.node].At();
            (action.step.node, VerdictOf(rules, w, action).value)
            in Stepped(rules, w, action.step).clusters[k].decisions
  {
    StepMoves(EnvAt(rules, w, w.replicas[action.step.node].At()), w.clusters[w.replicas[action.step.node].At()],
              action.step);
  }

  lemma SteppedStage(rules: Rules, w: World, step: Step, k: nat)
    requires Sound(rules, w) && Placed(w, step.node) && k < |w.views|
    requires var m := w.replicas[step.node].At();
             Enabled(EnvAt(rules, w, m), w.clusters[m], step) && EnvAt(rules, w, m).Safe()
    requires step.ProposeStep? ==> Distinct(step.value)
    ensures StageOk(rules, Stepped(rules, w, step), k)
  {
    assert StageOk(rules, w, k);
    if k == w.replicas[step.node].At() {
      StepMoves(EnvAt(rules, w, k), w.clusters[k], step);
      StepReaches(EnvAt(rules, w, k), w.clusters[k], step);
    }
  }

  lemma SteppedSound(rules: Rules, w: World, step: Step)
    requires Sound(rules, w) && Placed(w, step.node)
    requires var k := w.replicas[step.node].At();
             Enabled(EnvAt(rules, w, k), w.clusters[k], step) && EnvAt(rules, w, k).Safe()
    requires step.ProposeStep? ==> Distinct(step.value)
    ensures Sound(rules, Stepped(rules, w, step))
  {
    var m, w' := w.replicas[step.node].At(), Stepped(rules, w, step);
    StepMoves(EnvAt(rules, w, m), w.clusters[m], step);
    forall k | 0 <= k < |w.views| ensures StageOk(rules, w', k) {
      SteppedStage(rules, w, step, k);
    }
    SteppedHistory(rules, w, w', m);
    forall a, k | 0 <= k < |w.views| ensures Untouched(rules, w', a, k) {
      assert Untouched(rules, w, a, k);
    }
  }

  /** Decisions are never lost, so what rests on them stands. */
  lemma SteppedHistory(rules: Rules, w: World, w': World, m: nat)
    requires Sound(rules, w) && m < |w.views| && |w'.clusters| == |w.clusters|
    requires w' == w.(clusters := w.clusters[m := w'.clusters[m]])
    requires w.clusters[m].decisions <= w'.clusters[m].decisions
    ensures forall k :: 0 <= k < |w'.chosen| ==> EndOk(w', k)
    ensures forall a :: a in w'.replicas ==> ReplicaOk(w', a, w'.replicas[a])
  {
    forall k | 0 <= k < |w'.chosen| ensures EndOk(w', k) {
      assert EndOk(w, k);
      var a :| (a, w.chosen[k].proposal) in w.clusters[k].decisions;
      assert (a, w.chosen[k].proposal) in w'.clusters[k].decisions;
    }
    forall a | a in w'.replicas ensures ReplicaOk(w', a, w'.replicas[a]) {
      assert ReplicaOk(w, a, w.replicas[a]);
      forall j | 0 <= j < |w.replicas[a].rounds| ensures RoundOk(w', a, w.replicas[a], j) {
        assert RoundOk(w, a, w.replicas[a], j);
      }
    }
  }

  // ---------------------------------------------------------------- a decision

  /** All decisions of a configuration are equal, and list endpoints once. */
  lemma StageDecides(rules: Rules, w: World, k: nat, d: (Endpoint, Proposal), e: (Endpoint, Proposal))
    requires Shaped(w) && k < |w.views| && StageOk(rules, w, k)
    requires d in w.clusters[k].decisions && e in w.clusters[k].decisions
    ensures d.1 == e.1 && Distinct(d.1)
  {
    var env, c := EnvAt(rules, w, k), w.clusters[k];
    var steps :| Execute(env, steps) == Some(c);
    Agreement.AllDecisionsAgree(env, steps, d, e);
    var a :| a in c.proposals && c.proposals[a] == d.1;
  }

  /** The view after one more round depends on the view before and what is known of the joiners. */
  lemma OneMoreRound(r: Replica, round: Round)
    ensures r.(rounds := r.rounds + [round]).Now().view
            == Decide(Informed(Bare(r.Now().view), round), round.proposal).view
    ensures r.(rounds := r.rounds + [round]).At() == r.At() + 1
  {
    assert (r.rounds + [round])[..|r.rounds|] == r.rounds;
    SameDecision(Informed(r.Now(), round), Informed(Bare(r.Now().view), round), round.proposal);
  }

  /** What `a` must have decided, and know, to advance. */
  ghost predicate MayAdvance(w: World, a: Endpoint, round: Round) {
    && Placed(w, a)
    && var k := w.replicas[a].At();
    && (a, round.proposal) in w.clusters[k].decisions
    && (k < |w.chosen| ==>
          SameAdmissions(Informed(Bare(w.views[k]), w.chosen[k]), Informed(w.replicas[a].Now(), round), round.proposal))
  }

  /** A replica that follows reaches the view of the next configuration. */
  lemma FollowerView(rules: Rules, w: World, a: Endpoint, round: Round)
    requires Sound(rules, w) && MayAdvance(w, a, round) && w.replicas[a].At() < |w.chosen|
    ensures var r := w.replicas[a];
            r.(rounds := r.rounds + [round]).Now().view == w.views[r.At() + 1]
  {
    var r := w.replicas[a];
    var k := r.At();
    assert StageOk(rules, w, k) && EndOk(w, k) && ReplicaOk(w, a, r);
    var b :| (b, w.chosen[k].proposal) in w.clusters[k].decisions;
    StageDecides(rules, w, k, (b, w.chosen[k].proposal), (a, round.proposal));
    StayEqualIff(Informed(Bare(w.views[k]), w.chosen[k]), Informed(r.Now(), round), round.proposal);
    assert (r.rounds + [round])[..|r.rounds|] == r.rounds;
  }

  lemma AdvancedRounds(rules: Rules, w: World, a: Endpoint, round: Round)
    requires Sound(rules, w) && MayAdvance(w, a, round)
    ensures var w' := Advanced(rules, w, a, round);
            && Shaped(w') && a in w'.replicas && w'.replicas[a].At() < |w'.views|
            && RoundsOk(w', a, w'.replicas[a])
  {
    var w', r := Advanced(rules, w, a, round), w.replicas[a];
    assert ReplicaOk(w, a, r);
    forall j | 0 <= j < |w'.replicas[a].rounds| ensures RoundOk(w', a, w'.replicas[a], j) {
      if j < |r.rounds| {
        assert RoundOk(w, a, r, j);
      }
    }
  }

  lemma AdvancedReplica(rules: Rules, w: World, a: Endpoint, round: Round)
    requires Sound(rules, w) && MayAdvance(w, a, round)
    ensures var w' := Advanced(rules, w, a, round); Shaped(w') && ReplicaOk(w', a, w'.replicas[a])
  {
    AdvancedRounds(rules, w, a, round);
    if w.replicas[a].At() + 1 < |w.views| {
      FollowerView(rules, w, a, round);
    }
  }

  /** The next configuration opens. */
  lemma OpenedStages(rules: Rules, w: World, a: Endpoint, round: Round)
    requires Sound(rules, w) && MayAdvance(w, a, round) && w.replicas[a].At() + 1 == |w.views|
    ensures var w' := Advanced(rules, w, a, round);
            && Shaped(w') && |w'.views| == |w.views| + 1
            && (forall k :: 0 <= k < |w'.views| ==> StageOk(rules, w', k))
            && (forall k :: 0 <= k < |w'.chosen| ==> EndOk(w', k))
  {
    var w', m := Advanced(rules, w, a, round), |w.views| - 1;
    forall k | 0 <= k < |w'.views| ensures StageOk(rules, w', k) {
      if k <= m {
        assert StageOk(rules, w, k);
      } else {
        assert Execute(EnvAt(rules, w', k), []) == Some(Init(EnvAt(rules, w', k)));
      }
    }
    forall k | 0 <= k < |w'.chosen| ensures EndOk(w', k) {
      if k < m {
        assert EndOk(w, k);
        assert w'.views[k] == w.views[k] && w'.views[k + 1] == w.views[k + 1];
      } else {
        assert StageOk(rules, w, k) && ReplicaOk(w, a, w.replicas[a]);
        StageDecides(rules, w, k, (a, round.proposal), (a, round.proposal));
        OneMoreRound(w.replicas[a], round);
      }
    }
  }

  /** The configurations that were there before stay as they are. */
  lemma KeptStages(rules: Rules, w: World, w': World)
    requires Sound(rules, w) && w' == w.(replicas := w'.replicas)
    ensures forall k :: 0 <= k < |w'.views| ==> StageOk(rules, w', k)
    ensures forall k :: 0 <= k < |w'.chosen| ==> EndOk(w', k)
  {
    forall k | 0 <= k < |w'.views| ensures StageOk(rules, w', k) { assert StageOk(rules, w, k); }
    forall k | 0 <= k < |w'.chosen| ensures EndOk(w', k) { assert EndOk(w, k); }
  }

  lemma OtherReplicas(rules: Rules, w: World, a: Endpoint, round: Round, b: Endpoint)
    requires Sound(rules, w) && MayAdvance(w, a, round) && b != a && b in w.replicas
    ensures var w' := Advanced(rules, w, a, round);
            b in w'.replicas && Shaped(w') && ReplicaOk(w', b, w'.replicas[b])
  {
    var w', r := Advanced(rules, w, a, round), w.replicas[b];
    assert ReplicaOk(w, b, r);
    forall j | 0 <= j < |r.rounds| ensures RoundOk(w', b, r, j) {
      assert RoundOk(w, b, r, j);
    }
  }

  lemma AdvancedUntouched(rules: Rules, w: World, a: Endpoint, round: Round, b: Endpoint, k: nat)
    requires Sound(rules, w) && MayAdvance(w, a, round) && k < |Advanced(rules, w, a, round).views|
    ensures Shaped(Advanced(rules, w, a, round)) && Untouched(rules, Advanced(rules, w, a, round), b, k)
  {
    if k < |w.views| {
      assert Untouched(rules, w, b, k);
    }
  }

  lemma AdvancedSound(rules: Rules, w: World, a: Endpoint, round: Round)
    requires Sound(rules, w) && MayAdvance(w, a, round)
    ensures Sound(rules, Advanced(rules, w, a, round))
  {
    var w' := Advanced(rules, w, a, round);
    AdvancedReplica(rules, w, a, round);
    if w.replicas[a].At() + 1 == |w.views| {
      OpenedStages(rules, w, a, round);
    } else {
      KeptStages(rules, w, w');
    }
    forall b | b in w'.replicas && b != a ensures ReplicaOk(w', b, w'.replicas[b]) {
      OtherReplicas(rules, w, a, round, b);
    }
    forall b, k | 0 <= k < |w'.views| ensures Untouched(rules, w', b, k) {
      AdvancedUntouched(rules, w, a, round, b, k);
    }
  }

  lemma BootOthers(w: World, w': World, b: Endpoint)
    requires Shaped(w) && b in w.replicas && ReplicaOk(w, b, w.replicas[b])
    requires w' == w.(replicas := w'.replicas) && b in w'.replicas && w'.replicas[b] == w.replicas[b]
    ensures ReplicaOk(w', b, w'.replicas[b])
  {
    forall j | 0 <= j < |w.replicas[b].rounds| ensures RoundOk(w', b, w.replicas[b], j) {
      assert RoundOk(w, b, w.replicas[b], j);
    }
  }

  lemma BootSound(rules: Rules, w: World, action: Action)
    requires Sound(rules, w) && action.Boot? && Can(rules, w, action)
    ensures Sound(rules, Done(rules, w, action))
  {
    var w' := Done(rules, w, action);
    var r, r' := w.replicas[action.via], w'.replicas[action.joiner];
    assert ReplicaOk(w, action.via, r) && r'.At() == r.At();
    KeptStages(rules, w, w');
    forall b | b in w'.replicas ensures ReplicaOk(w', b, w'.replicas[b]) {
      if b != action.joiner {
        BootOthers(w, w', b);
      }
    }
    forall b, k | 0 <= k < |w'.views| ensures Untouched(rules, w', b, k) {
      assert Untouched(rules, w, b, k);
    }
  }

  // ---------------------------------------------------------------- every run

  /** Every action keeps the deployment sound. */
  lemma ActionKeeps(rules: Rules, w: World, action: Action)
    requires Sound(rules, w) && Can(rules, w, action)
    ensures Sound(rules, Done(rules, w, action))
  {
    match action
    case Boot(_, _, _) => BootSound(rules, w, action);
    case Act(step, learnt) =>
      SteppedSound(rules, w, step);
      var verdict := VerdictOf(rules, w, action);
      if verdict.Some? {
        VerdictIsDecided(rules, w, action);
        SteppedPlaced(rules, w, step);
        AdvancedSound(rules, Stepped(rules, w, step), step.node, Lived(learnt, verdict.value));
      }
  }

  lemma SteppedPlaced(rules: Rules, w: World, step: Step)
    requires Placed(w, step.node)
    ensures Placed(Stepped(rules, w, step), step.node)
  {
    StepMoves(EnvAt(rules, w, w.replicas[step.node].At()), w.clusters[w.replicas[step.node].At()], step);
  }

  // ---------------------------------------------------------------- what one replica sees

  /** Whose state an action changes. */
  function Actor(action: Action): Endpoint {
    match action
    case Act(step, _) => step.node
    case Boot(joiner, _, _) => joiner
  }

  /** `a` is where it was: in its configuration, with its node and its proposal as they were. */
  predicate StandsStill(w: World, w': World, a: Endpoint)
    requires Placed(w, a)
  {
    && Placed(w', a) && w'.replicas[a] == w.replicas[a]
    && var k := w.replicas[a].At();
    && w'.views[k] == w.views[k] && w'.clusters[k].nodes[a] == w.clusters[k].nodes[a]
    && (a in w'.clusters[k].proposals <==> a in w.clusters[k].proposals)
  }

  lemma SteppedElsewhere(rules: Rules, w: World, step: Step, a: Endpoint)
    requires Placed(w, step.node) && Placed(w, a) && a != step.node
    ensures StandsStill(w, Stepped(rules, w, step), a)
  {
    var m := w.replicas[step.node].At();
    StepMoves(EnvAt(rules, w, m), w.clusters[m], step);
  }

  lemma AdvancedElsewhere(rules: Rules, w: World, b: Endpoint, round: Round, a: Endpoint)
    requires Placed(w, b) && Placed(w, a) && a != b
    ensures StandsStill(w, Advanced(rules, w, b, round), a)
  {
  }

  /** What others do leaves a replica where it is. */
  lemma Elsewhere(rules: Rules, w: World, action: Action, a: Endpoint)
    requires Sound(rules, w) && Can(rules, w, action) && Placed(w, a) && a != Actor(action)
    ensures StandsStill(w, Done(rules, w, action), a)
  {
    match action
    case Boot(_, _, _) =>
    case Act(step, learnt) =>
      SteppedElsewhere(rules, w, step, a);
      SteppedPlaced(rules, w, step);
      var verdict := VerdictOf(rules, w, action);
      if verdict.Some? {
        AdvancedElsewhere(rules, Stepped(rules, w, step), step.node, Lived(learnt, verdict.value), a);
      }
  }

  /** A replica that decides is in the next configuration, with the view the decision leads to. */
  lemma DeciderView(rules: Rules, w: World, action: Action, before: Service)
    requires Sound(rules, w) && action.Act? && Can(rules, w, action) && VerdictOf(rules, w, action).Some?
    requires before.view == w.views[w.replicas[action.step.node].At()] && before.joinerUuid == action.learnt.uuids
    ensures var (a, w') := (action.step.node, Done(rules, w, action));
            && a in w'.replicas
            && w'.replicas[a].At() == w.replicas[a].At() + 1 < |w'.views|
            && w'.views[w'.replicas[a].At()] == Decide(before, VerdictOf(rules, w, action).value).view
  {
    var a, v, w' := action.step.node, VerdictOf(rules, w, action).value, Done(rules, w, action);
    var r := w.replicas[a];
    ActionKeeps(rules, w, action);
    assert ReplicaOk(w, a, r) && ReplicaOk(w', a, w'.replicas[a]);
    OneMoreRound(r, Lived(action.learnt, v));
    SameDecision(Informed(Bare(r.Now().view), Lived(action.learnt, v)), before, v);
  }

  /** There, if it is still a member, its node has done nothing yet. */
  lemma AdvancedIdle(rules: Rules, w: World, a: Endpoint, round: Round)
    requires Sound(rules, w) && Placed(w, a)
    ensures NewThere(rules, Advanced(rules, w, a, round), a)
  {
    var k := w.replicas[a].At() + 1;
    if k < |w.views| {
      assert Untouched(rules, w, a, k);
    }
  }

  /** The node of `a` in its configuration, if it is a member there, has done nothing. */
  predicate NewThere(rules: Rules, w: World, a: Endpoint) {
    && a in w.replicas && w.replicas[a].At() < |w.views| == |w.clusters|
    && (a in w.views[w.replicas[a].At()].members ==> Idle(rules, w, a, w.replicas[a].At()))
  }

  lemma DeciderIdle(rules: Rules, w: World, action: Action)
    requires Sound(rules, w) && action.Act? && Can(rules, w, action) && VerdictOf(rules, w, action).Some?
    ensures NewThere(rules, Done(rules, w, action), action.step.node)
  {
    SteppedSound(rules, w, action.step);
    SteppedPlaced(rules, w, action.step);
    AdvancedIdle(rules, Stepped(rules, w, action.step), action.step.node,
                 Lived(action.learnt, VerdictOf(rules, w, action).value));
  }

  /** The replica `a` is in a configuration with the view `v`, where its node has done nothing yet. */
  predicate Landed(rules: Rules, w: World, a: Endpoint, v: Membership) {
    NewThere(rules, w, a) && w.views[w.replicas[a].At()] == v
  }

  lemma DeciderLands(rules: Rules, w: World, action: Action, before: Service)
    requires Sound(rules, w) && action.Act? && Can(rules, w, action) && VerdictOf(rules, w, action).Some?
    requires before.view == w.views[w.replicas[action.step.node].At()] && before.joinerUuid == action.learnt.uuids
    ensures Landed(rules, Done(rules, w, action), action.step.node,
                   Decide(before, VerdictOf(rules, w, action).value).view)
  {
    DeciderView(rules, w, action, before);
    DeciderIdle(rules, w, action);
  }

  /** Proposing and starting a classic round decide nothing. */
  lemma QuietStep(rules: Rules, w: World, step: Step, learnt: Round)
    requires Placed(w, step.node) && (step.ProposeStep? || step.StartClassicStep?)
    ensures VerdictOf(rules, w, Act(step, learnt)).None?
    ensures var k := w.replicas[step.node].At();
            Can(rules, w, Act(step, learnt))
            <==> Enabled(EnvAt(rules, w, k), w.clusters[k], step) && EnvAt(rules, w, k).Safe()
                 && (step.ProposeStep? ==> Distinct(step.value))
  {
  }

  /** A joiner is in the configuration of the member whose reply it booted from, with its view. */
  lemma JoinerLands(rules: Rules, w: World, action: Action)
    requires Sound(rules, w) && action.Boot? && Can(rules, w, action)
    ensures Landed(rules, Done(rules, w, action), action.joiner, w.replicas[action.via].Now().view)
  {
    assert ReplicaOk(w, action.via, w.replicas[action.via]);
    assert Untouched(rules, w, action.joiner, w.replicas[action.via].At());
  }

  /** The deployment after a run of actions, or `None` if one of them could not happen. */
  ghost function RunOf(rules: Rules, start: World, actions: seq<Action>): Option<World> {
    if actions == [] then Some(start)
    else
      var before, last := RunOf(rules, start, actions[..|actions| - 1]), actions[|actions| - 1];
      if before.Some? && Can(rules, before.value, last) then Some(Done(rules, before.value, last)) else None
  }

  lemma {:induction false} RunSound(rules: Rules, start: World, actions: seq<Action>)
    requires Sound(rules, start)
    ensures RunOf(rules, start, actions).Some? ==> Sound(rules, RunOf(rules, start, actions).value)
  {
    if actions != [] {
      var front := actions[..|actions| - 1];
      RunSound(rules, start, front);
      if RunOf(rules, start, actions).Some? {
        ActionKeeps(rules, RunOf(rules, start, front).value, actions[|actions| - 1]);
      }
    }
  }

  /** In every run of a deployment, replicas in the same configuration have the same view, whenever
      they started and whoever's decisions they saw; and its protocol decided one value. */
  lemma SameConfigurationSameView(rules: Rules, v: Membership, starts: map<Endpoint, Service>, actions: seq<Action>,
                                  a: Endpoint, b: Endpoint)
    requires starts.Keys == v.members && forall e :: e in starts ==> starts[e].view == v
    requires RunOf(rules, Genesis(rules, v, starts), actions).Some?
    ensures var w := RunOf(rules, Genesis(rules, v, starts), actions).value;
            && (a in w.replicas && b in w.replicas && w.replicas[a].At() == w.replicas[b].At() ==>
                  w.replicas[a].Now().view == w.replicas[b].Now().view)
            && (forall k, d, e :: 0 <= k < |w.clusters| && d in w.clusters[k].decisions && e in w.clusters[k].decisions
                  ==> d.1 == e.1)
  {
    GenesisSound(rules, v, starts);
    RunSound(rules, Genesis(rules, v, starts), actions);
    var w := RunOf(rules, Genesis(rules, v, starts), actions).value;
    forall k, d, e | 0 <= k < |w.clusters| && d in w.clusters[k].decisions && e in w.clusters[k].decisions
      ensures d.1 == e.1
    {
      StageDecides(rules, w, k, d, e);
    }
    assert a in w.replicas ==> ReplicaOk(w, a, w.replicas[a]);
    assert b in w.replicas ==> ReplicaOk(w, b, w.replicas[b]);
  }

  // ---------------------------------------------------------------- the same, as epochs

  /** The configurations as epochs: a run of the protocol for each. */
  ghost predicate EpochsOf(rules: Rules, w: World, n: nat, world: seq<Epoch>)
    requires Shaped(w) && n <= |w.views|
  {
    && |world| == n
    && forall k {:trigger world[k]} :: 0 <= k < n ==>
         world[k].env == EnvAt(rules, w, k) && Execute(world[k].env, world[k].steps) == Some(w.clusters[k])
  }

  lemma {:induction false} SomeEpochs(rules: Rules, w: World, n: nat) returns (world: seq<Epoch>)
    requires Sound(rules, w) && n <= |w.views|
    ensures EpochsOf(rules, w, n, world)
  {
    if n == 0 {
      world := [];
    } else {
      var front := SomeEpochs(rules, w, n - 1);
      assert StageOk(rules, w, n - 1);
      var steps :| Execute(EnvAt(rules, w, n - 1), steps) == Some(w.clusters[n - 1]);
      world := front + [Epoch(EnvAt(rules, w, n - 1), steps)];
    }
  }

  lemma EpochDecided(rules: Rules, w: World, world: seq<Epoch>, k: nat, a: Endpoint, v: Proposal)
    requires Sound(rules, w) && EpochsOf(rules, w, |w.views|, world) && k < |w.views|
    requires (a, v) in w.clusters[k].decisions
    ensures Decided(world[k], v)
  {
    assert StageOk(rules, w, k);
  }

  /** The `j`-th round of `r` applied a decision of its configuration. */
  ghost predicate RoundDone(world: seq<Epoch>, r: Replica, j: nat)
    requires j < |r.rounds|
  {
    r.from + j < |world| && Decided(world[r.from + j], r.rounds[j].proposal)
  }

  lemma RoundDecided(rules: Rules, w: World, world: seq<Epoch>, a: Endpoint, r: Replica, j: nat)
    requires Sound(rules, w) && EpochsOf(rules, w, |w.views|, world)
    requires r.At() < |w.views| && j < |r.rounds| && RoundOk(w, a, r, j)
    ensures RoundDone(world, r, j)
  {
    EpochDecided(rules, w, world, r.from + j, a, r.rounds[j].proposal);
  }

  lemma AllRoundsDone(world: seq<Epoch>, r: Replica)
    requires r.At() <= |world|
    requires forall j {:trigger RoundDone(world, r, j)} :: 0 <= j < |r.rounds| ==> RoundDone(world, r, j)
    ensures Follows(world, r.from, r.rounds)
  {
    forall j | 0 <= j < |r.rounds| ensures Decided(world[r.from + j], r.rounds[j].proposal) {
      assert RoundDone(world, r, j);
    }
  }

  lemma ReplicaFollows(rules: Rules, w: World, world: seq<Epoch>, a: Endpoint)
    requires Sound(rules, w) && EpochsOf(rules, w, |w.views|, world) && a in w.replicas
    ensures Follows(world, w.replicas[a].from, w.replicas[a].rounds)
  {
    var r := w.replicas[a];
    assert ReplicaOk(w, a, r);
    forall j | 0 <= j < |r.rounds| ensures RoundDone(world, r, j) {
      assert RoundOk(w, a, r, j);
      RoundDecided(rules, w, world, a, r, j);
    }
    AllRoundsDone(world, r);
  }

  /** A deployment is a sequence of epochs that every one of its replicas follows. */
  lemma ReplicasFollow(rules: Rules, w: World) returns (world: seq<Epoch>)
    requires Sound(rules, w)
    ensures EpochsOf(rules, w, |w.views|, world)
    ensures forall a :: a in w.replicas ==> Follows(world, w.replicas[a].from, w.replicas[a].rounds)
  {
    world := SomeEpochs(rules, w, |w.views|);
    forall a | a in w.replicas ensures Follows(world, w.replicas[a].from, w.replicas[a].rounds) {
      ReplicaFollows(rules, w, world, a);
    }
  }
}
