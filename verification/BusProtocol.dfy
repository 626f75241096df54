/** The bus does protocol steps only: from nodes of a reachable protocol state, every storm of
    deliveries ends in another reachable state, so whatever is proposed, started and dropped, the
    decisions it records agree. */
module BusProtocol {
  import opened Types
  import opened SetFacts
  import opened Listings
  import opened Messages
  import opened FastConsensus
  import opened Protocol
  import opened ProtocolInvariant
  import opened ProtocolSteps
  import opened Agreement
  import opened DisagreementRuns
  import opened BusStorm

  // ---------------------------------------------------------------- queue items as packets

  function AsPacket(endpoints: seq<Endpoint>, item: Pending): Packet
    requires item.UnicastItem? ==> item.dst < |endpoints|
  {
    match item
    case BroadcastItem(r) => Packet(None, r)
    case UnicastItem(dst, r) => Packet(Some(endpoints[dst]), r)
  }

  /** A queue of packets that were sent; a promise in it was not delivered and occurs once. */
  predicate QueueOk(endpoints: seq<Endpoint>, c: Cluster, queue: seq<Pending>) {
    && (forall k :: 0 <= k < |queue| ==>
          && (queue[k].UnicastItem? ==> queue[k].dst < |endpoints|)
          && AsPacket(endpoints, queue[k]) in c.sent
          && (queue[k].request.Phase1b? ==> AsPacket(endpoints, queue[k]) !in c.taken))
    && (forall k, l :: 0 <= k < l < |queue| && queue[k].request.Phase1b? && queue[l].request.Phase1b?
          ==> AsPacket(endpoints, queue[k]) != AsPacket(endpoints, queue[l]))
  }

  lemma QueueGrows(endpoints: seq<Endpoint>, c: Cluster, c': Cluster, p: Packet, queue: seq<Pending>)
    requires QueueOk(endpoints, c, queue) && c.sent <= c'.sent && c'.taken == c.taken + {p}
    requires forall k :: 0 <= k < |queue| && queue[k].request.Phase1b? ==> AsPacket(endpoints, queue[k]) != p
    ensures QueueOk(endpoints, c', queue)
  {
  }

  lemma QueueAppend(endpoints: seq<Endpoint>, c: Cluster, queue: seq<Pending>, item: Pending)
    requires QueueOk(endpoints, c, queue)
    requires item.UnicastItem? ==> item.dst < |endpoints|
    requires AsPacket(endpoints, item) in c.sent
    requires item.request.Phase1b? ==> AsPacket(endpoints, item) !in c.taken
    requires item.request.Phase1b? ==>
               forall k :: 0 <= k < |queue| ==> AsPacket(endpoints, queue[k]) != AsPacket(endpoints, item)
    ensures QueueOk(endpoints, c, queue + [item])
  {
  }

  /** What a delivery to `a` adds to the queue is sent, new if a promise, and not yet delivered. */
  lemma DeliveryQueue(env: Env, endpoints: seq<Endpoint>, c: Cluster, a: Endpoint, p: Packet, queue: seq<Pending>)
    requires Reachable(env, c) && c.taken <= c.sent && Enabled(env, c, DeliverStep(a, p))
    requires QueueOk(endpoints, c, queue)
    requires forall k :: 0 <= k < |queue| && queue[k].request.Phase1b? ==> AsPacket(endpoints, queue[k]) != p
    ensures var c' := Next(env, c, DeliverStep(a, p));
            c'.taken <= c'.sent
            && QueueOk(endpoints, c', queue + AllEnqueued(endpoints, HandleRequest(c.nodes[a], p.request).1))
  {
    DeliveryGrows(env, c, a, p);
    QueueGrows(endpoints, c, Next(env, c, DeliverStep(a, p)), p, queue);
    if HandleRequest(c.nodes[a], p.request).1 == [] {
      assert queue + [] == queue;
    } else {
      AnswerQueue(env, endpoints, c, a, p, queue);
    }
  }

  lemma DeliveryGrows(env: Env, c: Cluster, a: Endpoint, p: Packet)
    requires a in c.nodes && p in c.sent && c.taken <= c.sent
    ensures var c' := Next(env, c, DeliverStep(a, p));
            c.sent <= c'.sent && c'.taken == c.taken + {p} && c'.taken <= c'.sent
  {
    DeliverNext(env, c, a, p);
  }

  /** The same for the one message the delivery sent. */
  lemma AnswerQueue(env: Env, endpoints: seq<Endpoint>, c: Cluster, a: Endpoint, p: Packet, queue: seq<Pending>)
    requires Reachable(env, c) && c.taken <= c.sent && Enabled(env, c, DeliverStep(a, p))
    requires QueueOk(endpoints, Next(env, c, DeliverStep(a, p)), queue)
    requires QueueOk(endpoints, c, queue) && HandleRequest(c.nodes[a], p.request).1 != []
    ensures QueueOk(endpoints, Next(env, c, DeliverStep(a, p)),
                    queue + AllEnqueued(endpoints, HandleRequest(c.nodes[a], p.request).1))
  {
    var outs := HandleRequest(c.nodes[a], p.request).1;
    DeliverNext(env, c, a, p);
    assert |outs| == 1 && outs[1..] == [];
    var items := Enqueued(endpoints, outs[0]);
    assert AllEnqueued(endpoints, outs) == items;
    if items == [] {
      assert queue + items == queue;
    } else {
      assert items == [items[0]];
      if items[0].request.Phase1b? {
        FreshPromise(env, c, a, p, outs[0]);
      }
      QueueAppend(endpoints, Next(env, c, DeliverStep(a, p)), queue, items[0]);
    }
  }

  /** A promise just sent was never sent before. */
  lemma FreshPromise(env: Env, c: Cluster, a: Endpoint, p: Packet, out: Outgoing)
    requires Reachable(env, c) && Enabled(env, c, DeliverStep(a, p))
    requires HandleRequest(c.nodes[a], p.request).1 == [out] && out.Unicast? && out.request.Phase1b?
    ensures forall to :: Packet(to, out.request) !in c.sent
    ensures p.request.Phase1a?
  {
    var steps :| Execute(env, steps) == Some(c);
    RunKeeps(env, steps);
    Delivered(env, c, a, p);
    forall to ensures Packet(to, out.request) !in c.sent {
      assert Packet(to, out.request) in c.sent ==> PacketOk(env, c, Packet(to, out.request));
    }
  }

  /** Only unicast promises exist, so a broadcast is never a promise. */
  lemma BroadcastIsNoPromise(env: Env, c: Cluster, p: Packet)
    requires Reachable(env, c) && p in c.sent && p.to == None
    ensures !p.request.Phase1b?
  {
    var steps :| Execute(env, steps) == Some(c);
    RunKeeps(env, steps);
    assert PacketOk(env, c, p);
  }

  /** A proposal puts exactly its own broadcast vote on the queue. */
  lemma ProposalQueued(endpoints: seq<Endpoint>, vote: Outgoing, outs: seq<Outgoing>, d: Option<Proposal>)
    requires outs == [vote, ScheduleClassicFallback] && vote.Broadcast?
    ensures AllEnqueued(endpoints, outs) == [BroadcastItem(vote.request)] && Recorded(outs, d) == d
  {
    assert Recorded(outs[1..][1..], d) == d;
    assert Recorded(outs[1..], d) == d;
    assert outs[1..] == [ScheduleClassicFallback];
    assert AllEnqueued(endpoints, outs[1..][1..]) == [];
    assert AllEnqueued(endpoints, outs[1..]) == [];
  }

  lemma StartNext(env: Env, c: Cluster, a: Endpoint)
    requires a in c.nodes
    ensures var c' := Next(env, c, StartClassicStep(a));
            var (s', outs) := StartClassicRound(c.nodes[a], env.nodeIndex(a));
            && c'.nodes == c.nodes[a := s'] && c'.taken == c.taken && c'.decisions == c.decisions
            && c'.proposals == c.proposals && |outs| <= 1
            && (forall out :: out in outs ==> out.Broadcast? && out.request.Phase1a?)
            && c'.sent == c.sent + if outs == [] then {} else {Packet(None, outs[0].request)}
  {
    var (s', outs) := StartClassicRound(c.nodes[a], env.nodeIndex(a));
    if outs != [] {
      EmitSingle(Install(c, a, s'), a, outs[0]);
    }
  }

  lemma {:induction false} RecordedIsEmitted(outs: seq<Outgoing>, d: Option<Proposal>)
    ensures Recorded(outs, d) == d || (Recorded(outs, d).Some? && Decision(Recorded(outs, d).value) in outs)
  {
    if outs != [] {
      RecordedIsEmitted(outs[1..], if outs[0].Decision? then Some(outs[0].value) else d);
      assert outs == [outs[0]] + outs[1..];
    }
  }

  /** Everything one delivery does to the protocol state, the queue and a recorded decision. */
  lemma DeliverySound(env: Env, endpoints: seq<Endpoint>, c: Cluster, a: Endpoint, p: Packet,
                      queue: seq<Pending>, d: Option<Proposal>)
    requires Reachable(env, c) && c.taken <= c.sent && Enabled(env, c, DeliverStep(a, p))
    requires QueueOk(endpoints, c, queue) && (d.Some? ==> (a, d.value) in c.decisions)
    requires forall k :: 0 <= k < |queue| && queue[k].request.Phase1b? ==> AsPacket(endpoints, queue[k]) != p
    ensures var c' := Next(env, c, DeliverStep(a, p));
            var (s', outs) := HandleRequest(c.nodes[a], p.request);
            && Reachable(env, c') && c'.taken <= c'.sent && c'.nodes == c.nodes[a := s']
            && c.sent <= c'.sent && c.decisions <= c'.decisions
            && c'.proposals == c.proposals
            && QueueOk(endpoints, c', queue + AllEnqueued(endpoints, outs))
            && (Recorded(outs, d).Some? ==> (a, Recorded(outs, d).value) in c'.decisions)
  {
    var (s', outs) := HandleRequest(c.nodes[a], p.request);
    DeliveryQueue(env, endpoints, c, a, p, queue);
    StepReaches(env, c, DeliverStep(a, p));
    EmitRecords(Install(c.(taken := c.taken + {p}), a, s'), a, outs);
    RecordedIsEmitted(outs, d);
  }

  lemma InitSound(env: Env, endpoints: seq<Endpoint>)
    ensures Reachable(env, Init(env)) && Init(env).taken <= Init(env).sent && QueueOk(endpoints, Init(env), [])
    ensures Init(env).nodes.Keys == env.members
    ensures forall e :: e in env.members ==> Init(env).nodes[e] == InitFast(e, env.configurationId, env.N())
  {
    assert Execute(env, []) == Some(Init(env));
  }

  /** Everything one proposal does to the protocol state and an empty queue. */
  lemma ProposalSound(env: Env, endpoints: seq<Endpoint>, c: Cluster, a: Endpoint, v: Proposal, d: Option<Proposal>)
    requires Reachable(env, c) && c.taken <= c.sent && Enabled(env, c, ProposeStep(a, v))
    ensures var c' := Next(env, c, ProposeStep(a, v));
            var (s', outs) := Propose(c.nodes[a], v);
            && Reachable(env, c') && c'.taken <= c'.sent && c'.nodes == c.nodes[a := s']
            && c'.decisions == c.decisions && c'.proposals == c.proposals[a := v]
            && QueueOk(endpoints, c', AllEnqueued(endpoints, outs)) && Recorded(outs, d) == d
  {
    ReachableNamed(env, c, a);
    ProposeNext(env, c, a, v);
    StepReaches(env, c, ProposeStep(a, v));
    var outs := Propose(c.nodes[a], v).1;
    ProposalQueued(endpoints, outs[0], outs, d);
  }

  /** Everything the start of a classic round does to the protocol state and an empty queue. */
  lemma StartSound(env: Env, endpoints: seq<Endpoint>, c: Cluster, a: Endpoint, d: Option<Proposal>)
    requires Reachable(env, c) && c.taken <= c.sent && Enabled(env, c, StartClassicStep(a))
    ensures var c' := Next(env, c, StartClassicStep(a));
            var (s', outs) := StartClassicRound(c.nodes[a], env.nodeIndex(a));
            && Reachable(env, c') && c'.taken <= c'.sent && c'.nodes == c.nodes[a := s']
            && c'.decisions == c.decisions && c'.proposals == c.proposals
            && QueueOk(endpoints, c', AllEnqueued(endpoints, outs)) && Recorded(outs, d) == d
  {
    StartNext(env, c, a);
    StepReaches(env, c, StartClassicStep(a));
    var outs := StartClassicRound(c.nodes[a], env.nodeIndex(a)).1;
    if outs != [] {
      assert outs[1..] == [];
      assert AllEnqueued(endpoints, outs) == [BroadcastItem(outs[0].request)];
    }
  }

  /** Popping the front of the queue leaves a good queue in which a popped promise is gone. */
  lemma QueueTail(endpoints: seq<Endpoint>, c: Cluster, queue: seq<Pending>)
    requires QueueOk(endpoints, c, queue) && queue != []
    ensures QueueOk(endpoints, c, queue[1..])
    ensures queue[0].UnicastItem? ==> queue[0].dst < |endpoints|
    ensures AsPacket(endpoints, queue[0]) in c.sent
    ensures queue[0].request.Phase1b? ==> AsPacket(endpoints, queue[0]) !in c.taken
    ensures forall k :: 0 <= k < |queue[1..]| && queue[1..][k].request.Phase1b?
              ==> AsPacket(endpoints, queue[1..][k]) != AsPacket(endpoints, queue[0])
  {
  }

  // ---------------------------------------------------------------- the bus in a protocol state

  /** The instances sit at the members, one each. */
  ghost predicate Seated(env: Env, b: Bus) {
    && Shaped(b) && Distinct(b.endpoints)
    && forall i :: 0 <= i < |b.endpoints| ==>
         b.endpoints[i] in env.members && b.indices[i] == env.nodeIndex(b.endpoints[i])
  }

  /** The instances are in the states of the nodes of `c`; what they recorded was decided there. */
  ghost predicate Synced(c: Cluster, b: Bus)
    requires Shaped(b)
  {
    && (forall i :: 0 <= i < |b.nodes| ==> b.endpoints[i] in c.nodes && b.nodes[i] == c.nodes[b.endpoints[i]])
    && (forall i :: 0 <= i < |b.nodes| && b.decisions[i].Some? ==>
          (b.endpoints[i], b.decisions[i].value) in c.decisions)
  }

  ghost predicate Tracks(env: Env, c: Cluster, b: Bus, queue: seq<Pending>) {
    && Seated(env, b) && Synced(c, b) && Reachable(env, c) && c.taken <= c.sent
    && QueueOk(b.endpoints, c, queue)
  }

  /** Nothing sent, proposed or decided is forgotten, and deliveries propose nothing. */
  predicate OnlyGrew(c: Cluster, c': Cluster) {
    c.sent <= c'.sent && c.decisions <= c'.decisions && c'.proposals == c.proposals
  }

  lemma MovedSyncs(c: Cluster, c': Cluster, b: Bus, i: nat, s: FastState, outs: seq<Outgoing>)
    requires Shaped(b) && Synced(c, b) && i < |b.nodes| && Distinct(b.endpoints)
    requires c'.nodes == c.nodes[b.endpoints[i] := s] && c.decisions <= c'.decisions
    requires Recorded(outs, b.decisions[i]).Some? ==>
               (b.endpoints[i], Recorded(outs, b.decisions[i]).value) in c'.decisions
    ensures Synced(c', Moved(b, i, s, outs))
  {
  }

  lemma HandledTracks(env: Env, c: Cluster, b: Bus, i: nat, p: Packet, queue: seq<Pending>)
    requires Tracks(env, c, b, queue) && i < |b.nodes| && Enabled(env, c, DeliverStep(b.endpoints[i], p))
    requires forall k :: 0 <= k < |queue| && queue[k].request.Phase1b? ==> AsPacket(b.endpoints, queue[k]) != p
    ensures var c' := Next(env, c, DeliverStep(b.endpoints[i], p));
            Tracks(env, c', Handled(b, i, p.request), queue + Answers(b, i, p.request)) && OnlyGrew(c, c')
  {
    var c' := Next(env, c, DeliverStep(b.endpoints[i], p));
    DeliverySound(env, b.endpoints, c, b.endpoints[i], p, queue, b.decisions[i]);
    MovedSyncs(c, c', b, i, HandleRequest(b.nodes[i], p.request).0, HandleRequest(b.nodes[i], p.request).1);
  }

  lemma {:induction false} FromTracks(env: Env, c: Cluster, b: Bus, i: nat, request: Request, queue: seq<Pending>)
    returns (c': Cluster)
    requires Tracks(env, c, b, queue) && Packet(None, request) in c.sent
    ensures Tracks(env, c', HandledFrom(b, i, request), queue + AnswersFrom(b, i, request)) && OnlyGrew(c, c')
    decreases |b.nodes| - i
  {
    c' := c;
    if i < |b.nodes| {
      var mid := NthTracks(env, c, b, i, request, queue);
      c' := FromTracks(env, mid, Handled(b, i, request), i + 1, request, queue + Answers(b, i, request));
    }
    AnswersAppend(b, i, request, queue);
  }

  lemma NthTracks(env: Env, c: Cluster, b: Bus, i: nat, request: Request, queue: seq<Pending>) returns (c': Cluster)
    requires Tracks(env, c, b, queue) && Packet(None, request) in c.sent && i < |b.nodes|
    ensures Tracks(env, c', Handled(b, i, request), queue + Answers(b, i, request)) && OnlyGrew(c, c')
  {
    BroadcastIsNoPromise(env, c, Packet(None, request));
    HandledTracks(env, c, b, i, Packet(None, request), queue);
    c' := Next(env, c, DeliverStep(b.endpoints[i], Packet(None, request)));
  }

  lemma AnswersAppend(b: Bus, i: nat, request: Request, queue: seq<Pending>)
    requires Shaped(b)
    ensures queue + AnswersFrom(b, i, request)
            == if i >= |b.nodes| then queue
               else (queue + Answers(b, i, request)) + AnswersFrom(Handled(b, i, request), i + 1, request)
  {
  }

  lemma DeliveredTracks(env: Env, c: Cluster, b: Bus, queue: seq<Pending>) returns (c': Cluster)
    requires Tracks(env, c, b, queue) && queue != [] && Queued(|b.nodes|, [queue[0]])
    ensures Tracks(env, c', AfterItem(b, queue[0]), queue[1..] + Fallout(b, queue[0])) && OnlyGrew(c, c')
  {
    var item := queue[0];
    QueueTail(b.endpoints, c, queue);
    if Dropped(b, item) {
      c' := c;
      assert queue[1..] + [] == queue[1..];
    } else {
      match item
      case BroadcastItem(r) => c' := FromTracks(env, c, b, 0, r, queue[1..]);
      case UnicastItem(dst, r) =>
        HandledTracks(env, c, b, dst, Packet(Some(b.endpoints[dst]), r), queue[1..]);
        c' := Next(env, c, DeliverStep(b.endpoints[dst], Packet(Some(b.endpoints[dst]), r)));
    }
  }

  /** A storm among nodes of a reachable state leaves them in a reachable state. */
  lemma {:induction false} DrainedTracks(env: Env, c: Cluster, b: Bus, queue: seq<Pending>) returns (c': Cluster)
    requires Tracks(env, c, b, queue) && Queued(|b.nodes|, queue)
    ensures Tracks(env, c', Drained(b, queue), []) && OnlyGrew(c, c')
    decreases TotalWeight(|b.nodes|, queue)
  {
    c' := c;
    if queue != [] {
      QueuedNext(b, queue);
      DeliveryKeepsShape(b, queue[0]);
      DeliveryShrinks(b, queue);
      var mid := DeliveredTracks(env, c, b, queue);
      c' := DrainedTracks(env, mid, AfterItem(b, queue[0]), queue[1..] + Fallout(b, queue[0]));
    }
  }

  // ---------------------------------------------------------------- runs of operations

  /** What a caller must respect for agreement: no forged messages, and proposals as the protocol
      wants them, non-empty, once per instance, and in time unless late votes are allowed. */
  predicate Proper(env: Env, b: Bus, proposed: set<nat>, op: BusOp)
    requires Shaped(b)
  {
    && Names(b, op) && !op.InjectOp?
    && (op.ProposeOp? ==>
          op.proposal != [] && op.idx !in proposed && (env.lateVotes || b.nodes[op.idx].paxos.rnd.round <= 1))
  }

  function NowProposed(proposed: set<nat>, op: BusOp): set<nat> {
    if op.ProposeOp? then proposed + {op.idx} else proposed
  }

  /** The proposals of the protocol state are those of the instances in `proposed`. */
  ghost predicate ProposedBy(c: Cluster, b: Bus, proposed: set<nat>) {
    forall i :: 0 <= i < |b.endpoints| ==> (b.endpoints[i] in c.proposals <==> i in proposed)
  }

  predicate Says(ops: seq<BusOp>, v: Proposal) {
    exists k :: 0 <= k < |ops| && ops[k].ProposeOp? && ops[k].proposal == v
  }

  /** Every proposal of `c'` was one of `c` or is the proposal of one of the operations. */
  predicate Traced(c: Cluster, c': Cluster, ops: seq<BusOp>) {
    forall a :: a in c'.proposals ==>
      (a in c.proposals && c.proposals[a] == c'.proposals[a]) || Says(ops, c'.proposals[a])
  }

  lemma PerformTracks(env: Env, c: Cluster, b: Bus, proposed: set<nat>, op: BusOp) returns (c': Cluster)
    requires Tracks(env, c, b, []) && Proper(env, b, proposed, op) && ProposedBy(c, b, proposed)
    ensures Tracks(env, c', Perform(b, op), []) && ProposedBy(c', Perform(b, op), NowProposed(proposed, op))
    ensures Traced(c, c', [op])
  {
    PerformKeepsShape(b, op);
    match op
    case DropOp(_) => c' := c;
    case StartOp(_) => c' := StartTracks(env, c, b, op);
    case ProposeOp(_, _) =>
      c' := ProposeTracks(env, c, b, op);
      assert [op][0] == op;
  }

  lemma StartTracks(env: Env, c: Cluster, b: Bus, op: BusOp) returns (c': Cluster)
    requires Tracks(env, c, b, []) && Names(b, op) && op.StartOp?
    ensures Tracks(env, c', Perform(b, op), []) && c'.proposals == c.proposals
  {
    var a := b.endpoints[op.idx];
    StartSound(env, b.endpoints, c, a, b.decisions[op.idx]);
    c' := KickTracks(env, c, Next(env, c, StartClassicStep(a)), b, op);
  }

  lemma ProposeTracks(env: Env, c: Cluster, b: Bus, op: BusOp) returns (c': Cluster)
    requires Tracks(env, c, b, []) && Names(b, op) && op.ProposeOp?
    requires Enabled(env, c, ProposeStep(b.endpoints[op.idx], op.proposal))
    ensures Tracks(env, c', Perform(b, op), [])
    ensures c'.proposals == c.proposals[b.endpoints[op.idx] := op.proposal]
  {
    var a := b.endpoints[op.idx];
    ProposalSound(env, b.endpoints, c, a, op.proposal, b.decisions[op.idx]);
    c' := KickTracks(env, c, Next(env, c, ProposeStep(a, op.proposal)), b, op);
  }

  /** After its first transition took `c` to `mid`, an operation drains. */
  lemma KickTracks(env: Env, c: Cluster, mid: Cluster, b: Bus, op: BusOp) returns (c': Cluster)
    requires Seated(env, b) && Synced(c, b) && Names(b, op) && !op.DropOp?
    requires Reachable(env, mid) && mid.taken <= mid.sent && c.decisions <= mid.decisions
    requires var (s, outs) := Kick(b, op);
      && mid.nodes == c.nodes[b.endpoints[op.idx] := s]
      && QueueOk(b.endpoints, mid, AllEnqueued(b.endpoints, outs))
      && Recorded(outs, b.decisions[op.idx]) == b.decisions[op.idx]
    ensures Tracks(env, c', Perform(b, op), []) && c'.proposals == mid.proposals
  {
    var (s, outs) := Kick(b, op);
    MovedSyncs(c, mid, b, op.idx, s, outs);
    QueuedAnswers(b.endpoints, outs);
    c' := DrainedTracks(env, mid, Moved(b, op.idx, s, outs), AllEnqueued(b.endpoints, outs));
  }

  predicate AllNamed(b: Bus, ops: seq<BusOp>) {
    forall k :: 0 <= k < |ops| ==> Names(b, ops[k])
  }

  function PerformAll(b: Bus, ops: seq<BusOp>): Bus
    requires Shaped(b) && AllNamed(b, ops)
    decreases |ops|
  {
    if ops == [] then b
    else
      PerformKeepsShape(b, ops[0]);
      PerformAll(Perform(b, ops[0]), ops[1..])
  }

  predicate AllProper(env: Env, b: Bus, proposed: set<nat>, ops: seq<BusOp>)
    requires Shaped(b) && AllNamed(b, ops)
    decreases |ops|
  {
    ops != [] ==>
      && Proper(env, b, proposed, ops[0])
      && (PerformKeepsShape(b, ops[0]);
          AllProper(env, Perform(b, ops[0]), NowProposed(proposed, ops[0]), ops[1..]))
  }

  lemma {:induction false} RunTracks(env: Env, c: Cluster, b: Bus, proposed: set<nat>, ops: seq<BusOp>)
    returns (c': Cluster)
    requires Tracks(env, c, b, []) && ProposedBy(c, b, proposed)
    requires AllNamed(b, ops) && AllProper(env, b, proposed, ops)
    ensures Tracks(env, c', PerformAll(b, ops), []) && Traced(c, c', ops)
    decreases |ops|
  {
    c' := c;
    if ops != [] {
      PerformKeepsShape(b, ops[0]);
      var mid := PerformTracks(env, c, b, proposed, ops[0]);
      c' := RunTracks(env, mid, Perform(b, ops[0]), NowProposed(proposed, ops[0]), ops[1..]);
      TracedOn(c, mid, c', ops);
    }
  }

  lemma TracedOn(c: Cluster, mid: Cluster, c': Cluster, ops: seq<BusOp>)
    requires ops != [] && Traced(c, mid, [ops[0]]) && Traced(mid, c', ops[1..])
    ensures Traced(c, c', ops)
  {
    forall a | a in c'.proposals && !(a in c.proposals && c.proposals[a] == c'.proposals[a])
      ensures Says(ops, c'.proposals[a])
    {
      if k :| 0 <= k < |ops[1..]| && ops[1..][k].ProposeOp? && ops[1..][k].proposal == c'.proposals[a] {
        assert ops[k + 1] == ops[1..][k];
      } else {
        assert Says([ops[0]], mid.proposals[a]);
        assert ops[0].ProposeOp? && ops[0].proposal == c'.proposals[a];
      }
    }
  }

  /** Whatever is proposed, started and dropped on a new bus, in any order, all decisions it has
      recorded are equal, and the value was proposed. */
  lemma BusAgrees(env: Env, endpoints: seq<Endpoint>, ops: seq<BusOp>, i: nat, j: nat)
    requires env.Safe() && Lists(endpoints, env.members)
    requires var b := InitBus(endpoints, env.configurationId, env.nodeIndex);
      && AllNamed(b, ops) && AllProper(env, b, {}, ops)
      && i < |endpoints| && j < |endpoints|
    ensures var b := PerformAll(InitBus(endpoints, env.configurationId, env.nodeIndex), ops);
            && |b.decisions| == |endpoints|
            && (b.decisions[i].Some? && b.decisions[j].Some? ==>
                  b.decisions[i] == b.decisions[j] && Says(ops, b.decisions[i].value))
  {
    var b := InitBus(endpoints, env.configurationId, env.nodeIndex);
    InitTracks(env, endpoints);
    var c := RunTracks(env, Init(env), b, {}, ops);
    var last := PerformAll(b, ops);
    RunKeepsShape(b, ops);
    if last.decisions[i].Some? && last.decisions[j].Some? {
      var steps :| Execute(env, steps) == Some(c);
      AllDecisionsAgree(env, steps, (endpoints[i], last.decisions[i].value), (endpoints[j], last.decisions[j].value));
    }
  }

  lemma {:induction false} RunKeepsShape(b: Bus, ops: seq<BusOp>)
    requires Shaped(b) && AllNamed(b, ops)
    ensures Shaped(PerformAll(b, ops)) && PerformAll(b, ops).endpoints == b.endpoints
    decreases |ops|
  {
    if ops != [] {
      PerformKeepsShape(b, ops[0]);
      RunKeepsShape(Perform(b, ops[0]), ops[1..]);
    }
  }

  lemma InitTracks(env: Env, endpoints: seq<Endpoint>)
    requires Lists(endpoints, env.members)
    ensures var b := InitBus(endpoints, env.configurationId, env.nodeIndex);
            Tracks(env, Init(env), b, []) && ProposedBy(Init(env), b, {})
  {
    DistinctSize(endpoints);
    assert (set x | x in endpoints) == env.members;
    InitSound(env, endpoints);
    assert forall i :: 0 <= i < |endpoints| ==> endpoints[i] in endpoints;
  }
}
