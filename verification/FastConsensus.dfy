/** Fast Paxos: one fast round, then at most one classic round per node. */
module FastConsensus {
  import opened Types
  import opened CoordinatorRule
  import opened Messages
  import opened ClassicPaxos

  /** `struct FastPaxos`. `proposal_lookup` is written but never read by the source, and the
      fallback delay is random: neither is kept. */
  datatype FastState = FastState(
    myAddr: Endpoint, configurationId: int, membershipSize: nat,
    paxos: PaxosState,
    votesReceived: set<Endpoint>, votesPerProposal: map<Proposal, nat>,
    decided: bool, classicStarted: bool)

  function InitFast(myAddr: Endpoint, configurationId: int, n: nat): FastState {
    FastState(myAddr, configurationId, n, InitPaxos(myAddr, configurationId, n), {}, map[], false, false)
  }

  /** `propose`: register the vote, broadcast it in any case, and arm the fallback. */
  function Propose(s: FastState, proposal: Proposal): (FastState, seq<Outgoing>) {
    (s.(paxos := RegisterFastRoundVote(s.paxos, proposal)),
     [Broadcast(FastVote(FastRoundPhase2bMessage(s.configurationId, proposal, Some(s.myAddr)))),
      ScheduleClassicFallback])
  }

  /** Of a proposal come one broadcast of the vote, under the own address, and one request for the
      fallback timer, and nothing else; the vote is not counted yet. */
  lemma ProposeEffects(s: FastState, proposal: Proposal)
    ensures var (s', outs) := Propose(s, proposal);
            var vote := Broadcast(FastVote(FastRoundPhase2bMessage(s.configurationId, proposal, Some(s.myAddr))));
            && multiset(outs) == multiset{vote, ScheduleClassicFallback}
            && s' == s.(paxos := s'.paxos)
  {
    var vote := Broadcast(FastVote(FastRoundPhase2bMessage(s.configurationId, proposal, Some(s.myAddr))));
    assert Propose(s, proposal).1 == [vote, ScheduleClassicFallback];
  }

  function Votes(s: FastState, value: Proposal): nat {
    if value in s.votesPerProposal then s.votesPerProposal[value] else 0
  }

  /** `handle_fast_round_proposal`: count the first vote of each sender; decide at the quorum. */
  function OnFastVote(s: FastState, m: FastRoundPhase2bMessage): (FastState, seq<Outgoing>) {
    if m.configurationId != s.configurationId || s.decided || m.sender.None?
       || m.sender.value in s.votesReceived then (s, [])
    else
      var count := Votes(s, m.endpoints) + 1;
      var s' := s.(votesReceived := s.votesReceived + {m.sender.value},
                   votesPerProposal := s.votesPerProposal[m.endpoints := count]);
      if |s'.votesReceived| >= FastQuorum(s.membershipSize) && count >= FastQuorum(s.membershipSize)
      then (s'.(decided := true), [Decision(m.endpoints)])
      else (s', [])
  }

  /** `start_classic_round`: round 2, guarded by the latch. */
  function StartClassicRound(s: FastState, nodeIndex: int): (FastState, seq<Outgoing>) {
    if s.decided || s.classicStarted then (s, [])
    else
      var (p, outs) := StartPhase1a(s.paxos, 2, nodeIndex);
      (s.(classicStarted := true, paxos := p), outs)
  }

  /** A start is refused after a decision, after an earlier start, and when the coordinator is in a later
      round; otherwise it broadcasts one prepare of round 2 and nothing else, and never again. */
  lemma StartsOnce(s: FastState, nodeIndex: int, again: int)
    ensures var (s', outs) := StartClassicRound(s, nodeIndex);
            && (outs == [] <==> s.decided || s.classicStarted || s.paxos.crnd.round > 2)
            && (s.decided ==> s' == s)
            && (outs != [] ==>
                  outs == [Broadcast(Phase1a(Phase1aMessage(s.paxos.configurationId, Some(s.paxos.myAddr),
                                                            Some(Rank(2, nodeIndex)))))])
            && s'.decided == s.decided && StartClassicRound(s', again).1 == []
  {
  }

  function WithPaxos(s: FastState, r: (PaxosState, seq<Outgoing>)): (FastState, seq<Outgoing>) {
    (s.(paxos := r.0, decided := s.decided || r.0.decided), r.1)
  }

  /** `handle_consensus_message`. */
  function HandleRequest(s: FastState, request: Request): (FastState, seq<Outgoing>) {
    match request
    case Phase1a(m) => WithPaxos(s, OnPhase1a(s.paxos, m))
    case Phase1b(m) => WithPaxos(s, OnPhase1b(s.paxos, m))
    case Phase2a(m) => WithPaxos(s, OnPhase2a(s.paxos, m))
    case Phase2b(m) => WithPaxos(s, OnPhase2b(s.paxos, m))
    case FastVote(m) => OnFastVote(s, m)
    case Other => (s, [])
  }

  /** The object, owning its inner `Paxos`. */
  class FastPaxos {
    const myAddr: Endpoint
    const configurationId: int
    const membershipSize: nat
    const paxos: Paxos
    var votesReceived: set<Endpoint>
    var votesPerProposal: map<Proposal, nat>
    var decided: bool
    var classicStarted: bool

    ghost function State(): FastState
      reads this, paxos
    {
      FastState(myAddr, configurationId, membershipSize, paxos.State(),
                votesReceived, votesPerProposal, decided, classicStarted)
    }

    constructor (myAddr: Endpoint, configurationId: int, membershipSize: nat, nodeIndex: int)
      ensures State() == InitFast(myAddr, configurationId, membershipSize)
      ensures paxos.nodeIndex == nodeIndex && fresh(paxos)
    {
      this.myAddr, this.configurationId, this.membershipSize := myAddr, configurationId, membershipSize;
      paxos := new Paxos(myAddr, configurationId, membershipSize, nodeIndex);
      votesReceived, votesPerProposal := {}, map[];
      decided, classicStarted := false, false;
    }

    method ProposeValue(proposal: Proposal) returns (outs: seq<Outgoing>)
      modifies this, paxos
      ensures (State(), outs) == Propose(old(State()), proposal)
      ensures multiset(outs)[ScheduleClassicFallback] == 1
      ensures multiset(outs)[Broadcast(FastVote(FastRoundPhase2bMessage(configurationId, proposal, Some(myAddr))))] == 1
      ensures |outs| == 2
    {
      paxos.RegisterVote(proposal);
      var m := FastRoundPhase2bMessage(configurationId, proposal, Some(myAddr));
      outs := [Broadcast(FastVote(m)), ScheduleClassicFallback];
      assert multiset(outs) == multiset{Broadcast(FastVote(m)), ScheduleClassicFallback};
    }

    method HandleFastRoundProposal(m: FastRoundPhase2bMessage) returns (outs: seq<Outgoing>)
      modifies this
      ensures (State(), outs) == OnFastVote(old(State()), m)
    {
      if m.configurationId != configurationId || decided || m.sender.None? || m.sender.value in votesReceived {
        return [];
      }
      votesReceived := votesReceived + {m.sender.value};
      var count := if m.endpoints in votesPerProposal then votesPerProposal[m.endpoints] else 0;
      count := count + 1;
      votesPerProposal := votesPerProposal[m.endpoints := count];
      var f := (if membershipSize == 0 then 0 else membershipSize - 1) / 4;
      if |votesReceived| >= membershipSize - f && count >= membershipSize - f {
        decided := true;
        return [Decision(m.endpoints)];
      }
      return [];
    }

    method StartClassic() returns (outs: seq<Outgoing>)
      modifies this, paxos
      ensures (State(), outs) == StartClassicRound(old(State()), paxos.nodeIndex)
      ensures old(decided) ==> outs == [] && State() == old(State())
    {
      if decided || classicStarted {
        return [];
      }
      classicStarted := true;
      outs := paxos.Start(2);
    }

    method HandleConsensusMessage(request: Request) returns (outs: seq<Outgoing>)
      modifies this, paxos
      ensures (State(), outs) == HandleRequest(old(State()), request)
    {
      match request {
        case Phase1a(m) => outs := paxos.HandlePhase1a(m);
        case Phase1b(m) => outs := paxos.HandlePhase1b(m);
        case Phase2a(m) => outs := paxos.HandlePhase2a(m);
        case Phase2b(m) => outs := paxos.HandlePhase2b(m);
        case FastVote(m) =>
          outs := HandleFastRoundProposal(m);
          return;
        case Other => return [];
      }
      if paxos.decided {
        decided := true;
      }
    }
  }
}
