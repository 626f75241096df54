/** The in-memory bus as a value: N consensus states and a queue of messages, delivered in order
    until none is left. Delivery always ends, whatever states the nodes are in and whatever is on
    the queue. */
module BusStorm {
  import opened Types
  import opened Messages
  import opened FastConsensus

  datatype Pending =
    | BroadcastItem(request: Request)
    | UnicastItem(dst: nat, request: Request)

  // ---------------------------------------------------------------- the storm dies out

  /** The most work one delivery of `request` can enqueue: each handler emits at most one message,
      of a strictly later phase. */
  function Ripple(n: nat, request: Request): nat {
    match request
    case Phase1a(_) => n + 3
    case Phase1b(_) => n + 1
    case Phase2a(_) => 1
    case _ => 0
  }

  function Weight(n: nat, item: Pending): nat {
    match item
    case BroadcastItem(r) => 1 + n * Ripple(n, r)
    case UnicastItem(_, r) => 1 + Ripple(n, r)
  }

  function TotalWeight(n: nat, queue: seq<Pending>): nat {
    if queue == [] then 0 else Weight(n, queue[0]) + TotalWeight(n, queue[1..])
  }

  /** What one effect puts on the queue: a broadcast, or a unicast to a known endpoint. */
  function Enqueued(endpoints: seq<Endpoint>, out: Outgoing): seq<Pending> {
    match out
    case Broadcast(r) => [BroadcastItem(r)]
    case Unicast(target, r) =>
      if target in endpoints then [UnicastItem(Position(endpoints, target), r)] else []
    case _ => []
  }

  function Position(endpoints: seq<Endpoint>, e: Endpoint): (i: nat)
    requires e in endpoints
    ensures i < |endpoints| && endpoints[i] == e
  {
    if endpoints[0] == e then 0 else 1 + Position(endpoints[1..], e)
  }

  function AllEnqueued(endpoints: seq<Endpoint>, outs: seq<Outgoing>): seq<Pending> {
    if outs == [] then [] else Enqueued(endpoints, outs[0]) + AllEnqueued(endpoints, outs[1..])
  }

  lemma {:induction false} WeightOfConcat(n: nat, a: seq<Pending>, b: seq<Pending>)
    ensures TotalWeight(n, a + b) == TotalWeight(n, a) + TotalWeight(n, b)
  {
    if a == [] {
      assert a + b == b;
    } else {
      WeightOfConcat(n, a[1..], b);
      assert (a + b)[1..] == a[1..] + b;
    }
  }

  /** From any state at all, one delivery enqueues no more than its ripple. */
  lemma DeliveryWeight(endpoints: seq<Endpoint>, n: nat, s: FastState, request: Request)
    ensures TotalWeight(n, AllEnqueued(endpoints, HandleRequest(s, request).1)) <= Ripple(n, request)
  {
    var outs := HandleRequest(s, request).1;
    assert |outs| <= 1;
    if outs != [] {
      assert outs[1..] == [];
      var items := Enqueued(endpoints, outs[0]);
      assert AllEnqueued(endpoints, outs) == items;
      if items != [] {
        assert items[1..] == [];
        assert TotalWeight(n, items) == Weight(n, items[0]);
      }
    }
  }

  /** Discriminator for selective drops; `Classify` has no kind for other requests. */
  datatype MsgKind = FastRoundKind | Phase1aKind | Phase1bKind | Phase2aKind | Phase2bKind

  function Classify(request: Request): Option<MsgKind> {
    match request
    case Phase1a(_) => Some(Phase1aKind)
    case Phase1b(_) => Some(Phase1bKind)
    case Phase2a(_) => Some(Phase2aKind)
    case Phase2b(_) => Some(Phase2bKind)
    case FastVote(_) => Some(FastRoundKind)
    case Other => None
  }

  /** The last decision among the effects, if any, replaces the recorded one. */
  function Recorded(outs: seq<Outgoing>, d: Option<Proposal>): Option<Proposal> {
    if outs == [] then d
    else Recorded(outs[1..], if outs[0].Decision? then Some(outs[0].value) else d)
  }

  // ---------------------------------------------------------------- the bus and one delivery

  /** The instances of the bus, each with its endpoint and its index, and what each decided. */
  datatype Bus = Bus(
    endpoints: seq<Endpoint>, indices: seq<int>, nodes: seq<FastState>,
    decisions: seq<Option<Proposal>>, dropped: set<MsgKind>)

  predicate Shaped(b: Bus) {
    |b.endpoints| == |b.nodes| == |b.indices| == |b.decisions|
  }

  /** Unicast items name an instance. */
  predicate Queued(n: nat, queue: seq<Pending>) {
    forall k :: 0 <= k < |queue| && queue[k].UnicastItem? ==> queue[k].dst < n
  }

  /** `new` and `with_endpoints`. */
  function InitBus(endpoints: seq<Endpoint>, configurationId: int, nodeIndex: Endpoint -> int): Bus {
    Bus(endpoints, seq(|endpoints|, i requires 0 <= i < |endpoints| => nodeIndex(endpoints[i])),
        seq(|endpoints|, i requires 0 <= i < |endpoints| => InitFast(endpoints[i], configurationId, |endpoints|)),
        seq(|endpoints|, _ => None), {})
  }

  /** `enqueue`: the effects of a transition of instance `i`, on the instances ... */
  function Moved(b: Bus, i: nat, s: FastState, outs: seq<Outgoing>): Bus
    requires Shaped(b) && i < |b.nodes|
  {
    b.(nodes := b.nodes[i := s], decisions := b.decisions[i := Recorded(outs, b.decisions[i])])
  }

  /** One instance handles `request` ... */
  function Handled(b: Bus, i: nat, request: Request): Bus
    requires Shaped(b) && i < |b.nodes|
  {
    Moved(b, i, HandleRequest(b.nodes[i], request).0, HandleRequest(b.nodes[i], request).1)
  }

  /** ... and what that puts on the queue. */
  function Answers(b: Bus, i: nat, request: Request): seq<Pending>
    requires i < |b.nodes|
  {
    AllEnqueued(b.endpoints, HandleRequest(b.nodes[i], request).1)
  }

  /** Instances `i` and later handle `request`, in order. */
  function HandledFrom(b: Bus, i: nat, request: Request): Bus
    requires Shaped(b)
    decreases |b.nodes| - i
  {
    if i >= |b.nodes| then b else HandledFrom(Handled(b, i, request), i + 1, request)
  }

  function AnswersFrom(b: Bus, i: nat, request: Request): seq<Pending>
    requires Shaped(b)
    decreases |b.nodes| - i
  {
    if i >= |b.nodes| then [] else Answers(b, i, request) + AnswersFrom(Handled(b, i, request), i + 1, request)
  }

  predicate Dropped(b: Bus, item: Pending) {
    Classify(item.request).Some? && Classify(item.request).value in b.dropped
  }

  /** One item is taken off the queue: the instances afterwards ... */
  function AfterItem(b: Bus, item: Pending): Bus
    requires Shaped(b) && Queued(|b.nodes|, [item])
  {
    if Dropped(b, item) then b
    else
      match item
      case BroadcastItem(r) => HandledFrom(b, 0, r)
      case UnicastItem(dst, r) => assert [item][0] == item; Handled(b, dst, r)
  }

  /** ... and what they put on the queue. */
  function Fallout(b: Bus, item: Pending): seq<Pending>
    requires Shaped(b) && Queued(|b.nodes|, [item])
  {
    if Dropped(b, item) then []
    else
      match item
      case BroadcastItem(r) => AnswersFrom(b, 0, r)
      case UnicastItem(dst, r) => assert [item][0] == item; Answers(b, dst, r)
  }

  // ---------------------------------------------------------------- what keeps its shape

  lemma {:induction false} QueuedAnswers(endpoints: seq<Endpoint>, outs: seq<Outgoing>)
    ensures Queued(|endpoints|, AllEnqueued(endpoints, outs))
  {
    if outs != [] {
      QueuedAnswers(endpoints, outs[1..]);
    }
  }

  lemma {:induction false} FromKeepsShape(b: Bus, i: nat, request: Request)
    requires Shaped(b)
    ensures Shaped(HandledFrom(b, i, request)) && HandledFrom(b, i, request).endpoints == b.endpoints
    ensures HandledFrom(b, i, request).indices == b.indices && HandledFrom(b, i, request).dropped == b.dropped
    ensures Queued(|b.nodes|, AnswersFrom(b, i, request))
    decreases |b.nodes| - i
  {
    if i < |b.nodes| {
      QueuedAnswers(b.endpoints, HandleRequest(b.nodes[i], request).1);
      FromKeepsShape(Handled(b, i, request), i + 1, request);
    }
  }

  lemma DeliveryKeepsShape(b: Bus, item: Pending)
    requires Shaped(b) && Queued(|b.nodes|, [item])
    ensures Shaped(AfterItem(b, item)) && AfterItem(b, item).endpoints == b.endpoints
    ensures AfterItem(b, item).indices == b.indices && AfterItem(b, item).dropped == b.dropped
    ensures Queued(|b.nodes|, Fallout(b, item))
  {
    assert [item][0] == item;
    match item
    case BroadcastItem(r) => FromKeepsShape(b, 0, r);
    case UnicastItem(dst, r) => QueuedAnswers(b.endpoints, HandleRequest(b.nodes[dst], r).1);
  }

  // ---------------------------------------------------------------- every storm ends

  function Times(i: nat, r: nat): nat { if i == 0 then 0 else Times(i - 1, r) + r }

  lemma {:induction false} TimesIsProduct(i: nat, r: nat)
    ensures Times(i, r) == i * r
  {
    if i > 0 {
      TimesIsProduct(i - 1, r);
    }
  }

  lemma AnswersWeight(b: Bus, i: nat, request: Request)
    requires i < |b.nodes|
    ensures TotalWeight(|b.nodes|, Answers(b, i, request)) <= Ripple(|b.nodes|, request)
  {
    DeliveryWeight(b.endpoints, |b.nodes|, b.nodes[i], request);
  }

  lemma OneMore(n: nat, first: seq<Pending>, later: seq<Pending>, i: nat, r: nat)
    requires 0 < i && TotalWeight(n, first) <= r && TotalWeight(n, later) <= Times(i - 1, r)
    ensures TotalWeight(n, first + later) <= Times(i, r)
  {
    WeightOfConcat(n, first, later);
  }

  /** What the `left` instances from `i` on answer weighs at most one ripple each. */
  predicate AnswersLight(b: Bus, i: nat, request: Request, left: nat)
    requires Shaped(b)
  {
    TotalWeight(|b.nodes|, AnswersFrom(b, i, request)) <= Times(left, Ripple(|b.nodes|, request))
  }

  /** Delivering to one instance keeps the bus's shape. */
  lemma HandledKeepsShape(b: Bus, i: nat, request: Request)
    requires Shaped(b) && i < |b.nodes|
    ensures Shaped(Handled(b, i, request)) && |Handled(b, i, request).nodes| == |b.nodes|
  {
  }

  /** What a broadcast stirs up among any states weighs at most one ripple per instance. */
  lemma {:induction false} BroadcastWeight(b: Bus, i: nat, request: Request, left: nat)
    requires Shaped(b) && i + left == |b.nodes|
    ensures AnswersLight(b, i, request, left)
    decreases left, 1
  {
    if left == 0 {
      NobodyAnswers(b, i, request);
    } else {
      BroadcastOn(b, i, request, left);
    }
  }

  lemma {:induction false} BroadcastOn(b: Bus, i: nat, request: Request, left: nat)
    requires Shaped(b) && i + left == |b.nodes| && 0 < left
    ensures AnswersLight(b, i, request, left)
    decreases left, 0
  {
    HandledKeepsShape(b, i, request);
    BroadcastWeight(Handled(b, i, request), i + 1, request, left - 1);
    BroadcastStep(b, Handled(b, i, request), i, request, left);
  }

  lemma NobodyAnswers(b: Bus, i: nat, request: Request)
    requires Shaped(b) && i == |b.nodes|
    ensures AnswersLight(b, i, request, 0)
  {
  }

  lemma BroadcastStep(b: Bus, b': Bus, i: nat, request: Request, left: nat)
    requires Shaped(b) && i < |b.nodes| && 0 < left && b' == Handled(b, i, request)
    requires AnswersLight(b', i + 1, request, left - 1)
    ensures AnswersLight(b, i, request, left)
  {
    AnswersWeight(b, i, request);
    OneMore(|b.nodes|, Answers(b, i, request), AnswersFrom(Handled(b, i, request), i + 1, request), left,
            Ripple(|b.nodes|, request));
  }

  /** From any states, an item stirs up less than it weighs. */
  lemma FalloutIsLighter(b: Bus, item: Pending)
    requires Shaped(b) && Queued(|b.nodes|, [item])
    ensures TotalWeight(|b.nodes|, Fallout(b, item)) < Weight(|b.nodes|, item)
  {
    assert [item][0] == item;
    if !Dropped(b, item) {
      match item
      case BroadcastItem(r) => AllAnswersWeight(b, r);
      case UnicastItem(dst, r) => AnswersWeight(b, dst, r);
    }
  }

  lemma AllAnswersWeight(b: Bus, request: Request)
    requires Shaped(b)
    ensures TotalWeight(|b.nodes|, AnswersFrom(b, 0, request)) < Weight(|b.nodes|, BroadcastItem(request))
  {
    BroadcastWeight(b, 0, request, |b.nodes|);
    TimesIsProduct(|b.nodes|, Ripple(|b.nodes|, request));
  }

  /** So taking an item off the queue makes the queue lighter. */
  lemma DeliveryShrinks(b: Bus, queue: seq<Pending>)
    requires Shaped(b) && queue != [] && Queued(|b.nodes|, [queue[0]])
    ensures TotalWeight(|b.nodes|, queue[1..] + Fallout(b, queue[0])) < TotalWeight(|b.nodes|, queue)
  {
    FalloutIsLighter(b, queue[0]);
    WeightOfConcat(|b.nodes|, queue[1..], Fallout(b, queue[0]));
  }

  lemma QueuedNext(b: Bus, queue: seq<Pending>)
    requires Shaped(b) && Queued(|b.nodes|, queue) && queue != []
    ensures Queued(|b.nodes|, [queue[0]]) && Queued(|b.nodes|, queue[1..] + Fallout(b, queue[0]))
  {
    assert [queue[0]][0] == queue[0];
    DeliveryKeepsShape(b, queue[0]);
  }

  /** `drain`: the instances when the storm is over. It is over for all states and queues. */
  function Drained(b: Bus, queue: seq<Pending>): Bus
    requires Shaped(b) && Queued(|b.nodes|, queue)
    decreases TotalWeight(|b.nodes|, queue)
  {
    if queue == [] then b
    else
      QueuedNext(b, queue);
      DeliveryKeepsShape(b, queue[0]);
      DeliveryShrinks(b, queue);
      Drained(AfterItem(b, queue[0]), queue[1..] + Fallout(b, queue[0]))
  }

  lemma {:induction false} DrainedKeepsShape(b: Bus, queue: seq<Pending>)
    requires Shaped(b) && Queued(|b.nodes|, queue)
    ensures Shaped(Drained(b, queue)) && Drained(b, queue).endpoints == b.endpoints
    ensures Drained(b, queue).indices == b.indices && Drained(b, queue).dropped == b.dropped
    decreases TotalWeight(|b.nodes|, queue)
  {
    if queue != [] {
      QueuedNext(b, queue);
      DeliveryKeepsShape(b, queue[0]);
      DeliveryShrinks(b, queue);
      DrainedKeepsShape(AfterItem(b, queue[0]), queue[1..] + Fallout(b, queue[0]));
    }
  }

  /** How many items `drain` takes off the queue. */
  function Deliveries(b: Bus, queue: seq<Pending>): nat
    requires Shaped(b) && Queued(|b.nodes|, queue)
    decreases TotalWeight(|b.nodes|, queue)
  {
    if queue == [] then 0
    else
      QueuedNext(b, queue);
      DeliveryKeepsShape(b, queue[0]);
      DeliveryShrinks(b, queue);
      1 + Deliveries(AfterItem(b, queue[0]), queue[1..] + Fallout(b, queue[0]))
  }

  /** From any states, the storm takes no more deliveries than its queue weighs. */
  lemma {:induction false} StormIsBounded(b: Bus, queue: seq<Pending>)
    requires Shaped(b) && Queued(|b.nodes|, queue)
    ensures Deliveries(b, queue) <= TotalWeight(|b.nodes|, queue)
    decreases TotalWeight(|b.nodes|, queue)
  {
    if queue != [] {
      QueuedNext(b, queue);
      DeliveryKeepsShape(b, queue[0]);
      DeliveryShrinks(b, queue);
      StormIsBounded(AfterItem(b, queue[0]), queue[1..] + Fallout(b, queue[0]));
    }
  }

  /** Starting a classic round among N instances in any states takes at most 1 + N(N + 3) deliveries:
      the prepare, N promises, and what those lead to. */
  lemma ClassicStormIsBounded(b: Bus, i: nat)
    requires Shaped(b) && i < |b.nodes|
    ensures var queue := AllEnqueued(b.endpoints, StartClassicRound(b.nodes[i], b.indices[i]).1);
            Queued(|b.nodes|, queue) && Deliveries(b, queue) <= 1 + |b.nodes| * (|b.nodes| + 3)
  {
    var outs := StartClassicRound(b.nodes[i], b.indices[i]).1;
    QueuedAnswers(b.endpoints, outs);
    StormIsBounded(b, AllEnqueued(b.endpoints, outs));
    PrepareWeight(b.endpoints, b.nodes[i], b.indices[i], |b.nodes|);
  }

  /** The start of a round sends a prepare or nothing. */
  lemma PrepareWeight(endpoints: seq<Endpoint>, s: FastState, index: int, n: nat)
    ensures TotalWeight(n, AllEnqueued(endpoints, StartClassicRound(s, index).1)) <= 1 + n * (n + 3)
  {
    var outs := StartClassicRound(s, index).1;
    if outs != [] {
      assert outs[1..] == [] && AllEnqueued(endpoints, outs[1..]) == [];
      LoneWeight(n, BroadcastItem(outs[0].request));
      assert AllEnqueued(endpoints, outs) == [BroadcastItem(outs[0].request)];
    }
  }

  lemma LoneWeight(n: nat, item: Pending)
    ensures TotalWeight(n, [item]) == Weight(n, item)
  {
    assert [item][1..] == [];
  }

  // ---------------------------------------------------------------- what a test does to the bus

  datatype BusOp =
    | ProposeOp(idx: nat, proposal: Proposal)
    | StartOp(idx: nat)
    | InjectOp(idx: nat, request: Request)
    | DropOp(kind: MsgKind)

  predicate Names(b: Bus, op: BusOp) {
    !op.DropOp? ==> op.idx < |b.endpoints|
  }

  /** The transition an operation starts with. */
  function Kick(b: Bus, op: BusOp): (FastState, seq<Outgoing>)
    requires Shaped(b) && Names(b, op) && !op.DropOp?
  {
    match op
    case ProposeOp(i, v) => Propose(b.nodes[i], v)
    case StartOp(i) => StartClassicRound(b.nodes[i], b.indices[i])
    case InjectOp(i, r) => HandleRequest(b.nodes[i], r)
  }

  /** `propose`, `start_classic_round` and `inject` drain what they stir up; `drop_kind` does not. */
  function Perform(b: Bus, op: BusOp): Bus
    requires Shaped(b) && Names(b, op)
  {
    if op.DropOp? then b.(dropped := b.dropped + {op.kind})
    else
      var (s, outs) := Kick(b, op);
      QueuedAnswers(b.endpoints, outs);
      Drained(Moved(b, op.idx, s, outs), AllEnqueued(b.endpoints, outs))
  }

  lemma PerformKeepsShape(b: Bus, op: BusOp)
    requires Shaped(b) && Names(b, op)
    ensures Shaped(Perform(b, op)) && Perform(b, op).endpoints == b.endpoints && Perform(b, op).indices == b.indices
  {
    if !op.DropOp? {
      var (s, outs) := Kick(b, op);
      QueuedAnswers(b.endpoints, outs);
      DrainedKeepsShape(Moved(b, op.idx, s, outs), AllEnqueued(b.endpoints, outs));
    }
  }
}
