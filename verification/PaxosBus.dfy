/** The in-memory bus as the object the tests use: N FastPaxos objects and a queue drained until
    quiescence. Every method is equal to the transition of `BusStorm` on the instances' states,
    whatever those are; that these transitions agree is proved in `BusProtocol`. */
module PaxosBus {
  import opened Types
  import opened Messages
  import opened FastConsensus
  import opened BusStorm

  class DirectPaxosBus {
    const endpoints: seq<Endpoint>
    const instances: seq<FastPaxos>
    var dropped: set<MsgKind>
    var decisions: seq<Option<Proposal>>
    var pending: seq<Pending>

    /** The instances are distinct objects, one per endpoint. */
    ghost predicate Wired()
      reads this
    {
      && |instances| == |endpoints| == |decisions| && Queued(|instances|, pending)
      && forall i, j :: 0 <= i < j < |instances| ==>
           instances[i] != instances[j] && instances[i].paxos != instances[j].paxos
    }

    ghost function Objects(): set<object> {
      (set i | 0 <= i < |instances| :: instances[i] as object)
      + (set i | 0 <= i < |instances| :: instances[i].paxos as object)
    }

    ghost function Nodes(): (nodes: seq<FastState>)
      reads Objects()
      ensures |nodes| == |instances| && forall i :: 0 <= i < |nodes| ==> nodes[i] == instances[i].State()
    {
      seq(|instances|, i requires 0 <= i < |instances| reads Objects() => instances[i].State())
    }

    ghost function State(): Bus
      reads this, Objects()
    {
      Bus(endpoints, seq(|instances|, i requires 0 <= i < |instances| => instances[i].paxos.nodeIndex),
          Nodes(), decisions, dropped)
    }

    static method Spawn(endpoints: seq<Endpoint>, configurationId: int, nodeIndex: Endpoint -> int)
      returns (list: seq<FastPaxos>)
      ensures |list| == |endpoints|
      ensures forall k :: 0 <= k < |list| ==> fresh(list[k]) && fresh(list[k].paxos)
      ensures forall k :: 0 <= k < |list| ==>
                list[k].State() == InitFast(endpoints[k], configurationId, |endpoints|)
                && list[k].paxos.nodeIndex == nodeIndex(endpoints[k])
      ensures forall k, l :: 0 <= k < l < |list| ==> list[k] != list[l] && list[k].paxos != list[l].paxos
    {
      list := [];
      for i := 0 to |endpoints|
        invariant |list| == i
        invariant forall k :: 0 <= k < i ==> fresh(list[k]) && fresh(list[k].paxos)
        invariant forall k :: 0 <= k < i ==>
                    list[k].State() == InitFast(endpoints[k], configurationId, |endpoints|)
                    && list[k].paxos.nodeIndex == nodeIndex(endpoints[k])
        invariant forall k, l :: 0 <= k < l < i ==> list[k] != list[l] && list[k].paxos != list[l].paxos
      {
        var fp := new FastPaxos(endpoints[i], configurationId, |endpoints|, nodeIndex(endpoints[i]));
        list := list + [fp];
      }
    }

    constructor (endpoints: seq<Endpoint>, list: seq<FastPaxos>)
      requires |list| == |endpoints|
      requires forall i, j :: 0 <= i < j < |list| ==> list[i] != list[j] && list[i].paxos != list[j].paxos
      ensures Wired() && pending == [] && this.endpoints == endpoints && instances == list
      ensures decisions == seq(|endpoints|, _ => None) && dropped == {}
    {
      this.endpoints := endpoints;
      instances := list;
      dropped := {};
      decisions := seq(|endpoints|, _ => None);
      pending := [];
    }

    /** `new` and `with_endpoints`: one instance per endpoint, nothing queued, nothing decided. */
    static method Create(endpoints: seq<Endpoint>, configurationId: int, nodeIndex: Endpoint -> int)
      returns (bus: DirectPaxosBus)
      ensures fresh(bus) && fresh(bus.Objects()) && bus.Wired() && bus.pending == []
      ensures bus.State() == InitBus(endpoints, configurationId, nodeIndex)
    {
      var list := Spawn(endpoints, configurationId, nodeIndex);
      bus := new DirectPaxosBus(endpoints, list);
      ghost var b := InitBus(endpoints, configurationId, nodeIndex);
      assert bus.State().nodes == b.nodes && bus.State().indices == b.indices;
    }

    /** `drop_kind`. */
    method DropKind(kind: MsgKind)
      requires Wired() && pending == []
      modifies this`dropped
      ensures Wired() && pending == [] && State() == Perform(old(State()), DropOp(kind))
    {
      dropped := dropped + {kind};
    }

    /** `enqueue`. */
    method Enqueue(idx: nat, outs: seq<Outgoing>)
      requires idx < |decisions|
      modifies this`pending, this`decisions
      ensures pending == old(pending) + AllEnqueued(endpoints, outs)
      ensures decisions == old(decisions)[idx := Recorded(outs, old(decisions)[idx])]
    {
      for k := 0 to |outs|
        invariant |decisions| == |old(decisions)|
        invariant pending + AllEnqueued(endpoints, outs[k..]) == old(pending) + AllEnqueued(endpoints, outs)
        invariant decisions == old(decisions)[idx := decisions[idx]]
        invariant Recorded(outs[k..], decisions[idx]) == Recorded(outs, old(decisions)[idx])
      {
        assert outs[k..][1..] == outs[k + 1..];
        assert pending + AllEnqueued(endpoints, outs[k..])
            == pending + Enqueued(endpoints, outs[k]) + AllEnqueued(endpoints, outs[k + 1..]);
        match outs[k] {
          case Broadcast(r) => pending := pending + [BroadcastItem(r)];
          case Unicast(target, r) =>
            if target in endpoints {
              pending := pending + [UnicastItem(Position(endpoints, target), r)];
            }
          case ScheduleClassicFallback =>
          case Decision(d) => decisions := decisions[idx := Some(d)];
        }
      }
    }

    /** Queue and record the effects of a transition that took instance `i` to `s`. */
    method Settle(i: nat, ghost was: Bus, ghost s: FastState, outs: seq<Outgoing>)
      requires Wired() && Shaped(was) && i < |was.nodes|
      requires State() == was.(nodes := was.nodes[i := s])
      modifies this`pending, this`decisions
      ensures Wired() && State() == Moved(was, i, s, outs)
      ensures pending == old(pending) + AllEnqueued(endpoints, outs)
    {
      QueuedAnswers(endpoints, outs);
      Enqueue(i, outs);
    }

    /** Only instance `i` changed. */
    twostate lemma OnlyOne(i: nat)
      requires old(Wired()) && Wired() && i < |instances|
      requires decisions == old(decisions) && dropped == old(dropped)
      requires forall j :: 0 <= j < |instances| && j != i ==> instances[j].State() == old(instances[j].State())
      ensures State() == old(State()).(nodes := old(State()).nodes[i := instances[i].State()])
    {
      assert Nodes() == old(Nodes())[i := instances[i].State()];
    }

    /** Hand `request` to one instance and queue what it answers. */
    method DeliverTo(i: nat, request: Request)
      requires Wired() && i < |instances|
      modifies this`pending, this`decisions, Objects()
      ensures Wired() && State() == Handled(old(State()), i, request)
      ensures pending == old(pending) + Answers(old(State()), i, request)
    {
      ghost var was := State();
      var outs := instances[i].HandleConsensusMessage(request);
      OnlyOne(i);
      Settle(i, was, instances[i].State(), outs);
    }

    /** Deliver one broadcast to every instance, in order. */
    method DeliverBroadcast(request: Request)
      requires Wired()
      modifies this`pending, this`decisions, Objects()
      ensures Wired() && State() == HandledFrom(old(State()), 0, request)
      ensures pending == old(pending) + AnswersFrom(old(State()), 0, request)
    {
      for i := 0 to |instances|
        invariant Wired() && State().endpoints == endpoints
        invariant HandledFrom(State(), i, request) == HandledFrom(old(State()), 0, request)
        invariant pending + AnswersFrom(State(), i, request) == old(pending) + AnswersFrom(old(State()), 0, request)
      {
        AnswersStep(State(), i, request, pending);
        DeliverTo(i, request);
      }
    }

    /** `drain`: deliver until nothing is pending, from any states of the instances. */
    method Drain()
      requires Wired()
      modifies this`pending, this`decisions, Objects()
      ensures Wired() && pending == []
      ensures State() == Drained(old(State()), old(pending))
    {
      while pending != []
        invariant Wired()
        invariant Drained(State(), pending) == Drained(old(State()), old(pending))
        decreases TotalWeight(|instances|, pending)
      {
        QueuedNext(State(), pending);
        DeliveryShrinks(State(), pending);
        DrainOne();
      }
    }

    /** Take the front of the queue, and deliver it unless its kind is dropped. */
    method DrainOne()
      requires Wired() && pending != []
      modifies this`pending, this`decisions, Objects()
      ensures Wired() && Queued(|instances|, [old(pending)[0]])
      ensures State() == AfterItem(old(State()), old(pending)[0])
      ensures pending == old(pending)[1..] + Fallout(old(State()), old(pending)[0])
    {
      QueuedNext(State(), pending);
      var item := pending[0];
      pending := pending[1..];
      var kind := Classify(item.request);
      if kind.Some? && kind.value in dropped {
        return;
      }
      match item {
        case BroadcastItem(r) => DeliverBroadcast(r);
        case UnicastItem(dst, r) => DeliverTo(dst, r);
      }
    }

    /** `propose`: from any states and with any value, the storm that follows ends. */
    method ProposeAt(idx: nat, proposal: Proposal)
      requires Wired() && pending == [] && idx < |instances|
      modifies this`pending, this`decisions, Objects()
      ensures Wired() && pending == [] && State() == Perform(old(State()), ProposeOp(idx, proposal))
    {
      ghost var was := State();
      var outs := instances[idx].ProposeValue(proposal);
      OnlyOne(idx);
      Settle(idx, was, instances[idx].State(), outs);
      assert pending == AllEnqueued(endpoints, outs);
      Drain();
    }

    /** `start_classic_round`. */
    method StartClassicAt(idx: nat)
      requires Wired() && pending == [] && idx < |instances|
      modifies this`pending, this`decisions, Objects()
      ensures Wired() && pending == [] && State() == Perform(old(State()), StartOp(idx))
    {
      ghost var was := State();
      var outs := instances[idx].StartClassic();
      OnlyOne(idx);
      Settle(idx, was, instances[idx].State(), outs);
      assert pending == AllEnqueued(endpoints, outs);
      Drain();
    }

    /** `inject`: hand one instance any message at all. */
    method Inject(idx: nat, request: Request)
      requires Wired() && pending == [] && idx < |instances|
      modifies this`pending, this`decisions, Objects()
      ensures Wired() && pending == [] && State() == Perform(old(State()), InjectOp(idx, request))
    {
      InjectIs(State(), idx, request);
      DeliverTo(idx, request);
      Drain();
    }
  }

  lemma InjectIs(b: Bus, i: nat, request: Request)
    requires Shaped(b) && i < |b.nodes|
    ensures Queued(|b.nodes|, [] + Answers(b, i, request)) && Shaped(Handled(b, i, request))
    ensures Perform(b, InjectOp(i, request)) == Drained(Handled(b, i, request), [] + Answers(b, i, request))
  {
    QueuedAnswers(b.endpoints, HandleRequest(b.nodes[i], request).1);
    assert [] + Answers(b, i, request) == Answers(b, i, request);
  }

  /** The first of the remaining instances answers before the others. */
  lemma AnswersStep(b: Bus, i: nat, request: Request, queue: seq<Pending>)
    requires Shaped(b) && i < |b.nodes|
    ensures HandledFrom(b, i, request) == HandledFrom(Handled(b, i, request), i + 1, request)
    ensures queue + AnswersFrom(b, i, request)
            == (queue + Answers(b, i, request)) + AnswersFrom(Handled(b, i, request), i + 1, request)
  {
  }
}
