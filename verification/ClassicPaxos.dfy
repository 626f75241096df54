/** Classic single-decree Paxos: acceptor, coordinator and learner in one object.

    Each transition is a function on `PaxosState`, the value of the object's fields; the class
    below changes its fields in place and is proved to compute exactly that function. */
module ClassicPaxos {
  import opened Types
  import opened CoordinatorRule
  import opened Messages

  datatype PaxosState = PaxosState(
    myAddr: Endpoint, configurationId: int, n: nat,
    rnd: Rank, vrnd: Rank, vval: Proposal,
    promises: seq<Phase1bMessage>,
    acceptResponses: map<Rank, map<Endpoint, Phase2bMessage>>,
    crnd: Rank, cval: Proposal, decided: bool)

  function InitPaxos(myAddr: Endpoint, configurationId: int, n: nat): PaxosState {
    PaxosState(myAddr, configurationId, n, ZERO_RANK, ZERO_RANK, [], [], map[], ZERO_RANK, [], false)
  }

  /** `start_phase1a`; `nodeIndex` is `stable_node_index` of this node's address. */
  function StartPhase1a(s: PaxosState, round: int, nodeIndex: int): (PaxosState, seq<Outgoing>) {
    if s.crnd.round > round then (s, [])
    else
      var crnd := Rank(round, nodeIndex);
      (s.(crnd := crnd),
       [Broadcast(Phase1a(Phase1aMessage(s.configurationId, Some(s.myAddr), Some(crnd))))])
  }

  /** `handle_phase1a`: promise a strictly higher rank. The rank is adopted even when the
      message names no sender to answer. */
  function OnPhase1a(s: PaxosState, m: Phase1aMessage): (PaxosState, seq<Outgoing>) {
    if m.configurationId != s.configurationId || m.rank.None? || !RankLess(s.rnd, m.rank.value) then (s, [])
    else
      var s' := s.(rnd := m.rank.value);
      if m.sender.None? then (s', [])
      else (s', [Unicast(m.sender.value, Phase1b(
                   Phase1bMessage(s.configurationId, Some(s'.rnd), Some(s.myAddr), Some(s.vrnd), s.vval)))])
  }

  /** `handle_phase1b`: collect promises for the current round; past a majority, order the value
      the coordinator rule picks, once. */
  function OnPhase1b(s: PaxosState, m: Phase1bMessage): (PaxosState, seq<Outgoing>) {
    if m.configurationId != s.configurationId || m.rnd != Some(s.crnd) then (s, [])
    else
      var s' := s.(promises := s.promises + [m]);
      if |s'.promises| <= s.n / 2 then (s', [])
      else
        var chosen := Select(s'.promises, s.n);
        if s.cval != [] || chosen == [] then (s', [])
        else (s'.(cval := chosen),
              [Broadcast(Phase2a(Phase2aMessage(s.configurationId, Some(s.myAddr), Some(s.crnd), chosen)))])
  }

  /** `handle_phase2a`: accept unless a higher rank was promised or this rank was accepted. */
  function OnPhase2a(s: PaxosState, m: Phase2aMessage): (PaxosState, seq<Outgoing>) {
    if m.configurationId != s.configurationId || m.rnd.None?
       || RankLess(m.rnd.value, s.rnd) || s.vrnd == m.rnd.value then (s, [])
    else
      (s.(rnd := m.rnd.value, vrnd := m.rnd.value, vval := m.vval),
       [Broadcast(Phase2b(Phase2bMessage(s.configurationId, m.rnd, Some(s.myAddr), m.vval)))])
  }

  function Bucket(s: PaxosState, r: Rank): map<Endpoint, Phase2bMessage> {
    if r in s.acceptResponses then s.acceptResponses[r] else map[]
  }

  /** `handle_phase2b`: count distinct acceptors per rank and decide past a majority. */
  function OnPhase2b(s: PaxosState, m: Phase2bMessage): (PaxosState, seq<Outgoing>) {
    if m.configurationId != s.configurationId || s.decided || m.rnd.None? || m.sender.None? then (s, [])
    else
      var bucket := Bucket(s, m.rnd.value)[m.sender.value := m];
      var s' := s.(acceptResponses := s.acceptResponses[m.rnd.value := bucket]);
      if |bucket| > s.n / 2 then (s'.(decided := true), [Decision(m.endpoints)]) else (s', [])
  }

  /** `register_fast_round_vote`: adopt the fast vote unless a classic rank was seen. */
  function RegisterFastRoundVote(s: PaxosState, vote: Proposal): PaxosState {
    if s.rnd.round > 1 then s else s.(rnd := FAST_RANK, vrnd := FAST_RANK, vval := vote)
  }

  /** `struct Paxos`. */
  class Paxos {
    const myAddr: Endpoint
    const configurationId: int
    const n: nat
    const nodeIndex: int
    var rnd: Rank
    var vrnd: Rank
    var vval: Proposal
    var promises: seq<Phase1bMessage>
    var acceptResponses: map<Rank, map<Endpoint, Phase2bMessage>>
    var crnd: Rank
    var cval: Proposal
    var decided: bool

    ghost function State(): PaxosState
      reads this
    {
      PaxosState(myAddr, configurationId, n, rnd, vrnd, vval, promises, acceptResponses, crnd, cval, decided)
    }

    constructor (myAddr: Endpoint, configurationId: int, n: nat, nodeIndex: int)
      ensures State() == InitPaxos(myAddr, configurationId, n) && this.nodeIndex == nodeIndex
    {
      this.myAddr, this.configurationId, this.n, this.nodeIndex := myAddr, configurationId, n, nodeIndex;
      rnd, vrnd, vval := ZERO_RANK, ZERO_RANK, [];
      promises, acceptResponses := [], map[];
      crnd, cval, decided := ZERO_RANK, [], false;
    }

    method Start(round: int) returns (outs: seq<Outgoing>)
      modifies this
      ensures (State(), outs) == StartPhase1a(old(State()), round, nodeIndex)
    {
      if crnd.round > round {
        return [];
      }
      crnd := Rank(round, nodeIndex);
      return [Broadcast(Phase1a(Phase1aMessage(configurationId, Some(myAddr), Some(crnd))))];
    }

    method HandlePhase1a(m: Phase1aMessage) returns (outs: seq<Outgoing>)
      modifies this
      ensures (State(), outs) == OnPhase1a(old(State()), m)
    {
      if m.configurationId != configurationId || m.rank.None? || !RankLess(rnd, m.rank.value) {
        return [];
      }
      rnd := m.rank.value;
      if m.sender.None? {
        return [];
      }
      var response := Phase1bMessage(configurationId, Some(rnd), Some(myAddr), Some(vrnd), vval);
      return [Unicast(m.sender.value, Phase1b(response))];
    }

    method HandlePhase1b(m: Phase1bMessage) returns (outs: seq<Outgoing>)
      modifies this
      ensures (State(), outs) == OnPhase1b(old(State()), m)
    {
      if m.configurationId != configurationId || m.rnd != Some(crnd) {
        return [];
      }
      promises := promises + [m];
      if |promises| <= n / 2 {
        return [];
      }
      var chosen := SelectProposalFromMessages(promises, n);
      if cval != [] || chosen == [] {
        return [];
      }
      cval := chosen;
      return [Broadcast(Phase2a(Phase2aMessage(configurationId, Some(myAddr), Some(crnd), chosen)))];
    }

    method HandlePhase2a(m: Phase2aMessage) returns (outs: seq<Outgoing>)
      modifies this
      ensures (State(), outs) == OnPhase2a(old(State()), m)
    {
      if m.configurationId != configurationId || m.rnd.None? {
        return [];
      }
      if !RankLess(m.rnd.value, rnd) && vrnd != m.rnd.value {
        rnd, vrnd, vval := m.rnd.value, m.rnd.value, m.vval;
        return [Broadcast(Phase2b(Phase2bMessage(configurationId, m.rnd, Some(myAddr), vval)))];
      }
      return [];
    }

    method HandlePhase2b(m: Phase2bMessage) returns (outs: seq<Outgoing>)
      modifies this
      ensures (State(), outs) == OnPhase2b(old(State()), m)
    {
      if m.configurationId != configurationId || decided || m.rnd.None? || m.sender.None? {
        return [];
      }
      var bucket := if m.rnd.value in acceptResponses then acceptResponses[m.rnd.value] else map[];
      bucket := bucket[m.sender.value := m];
      acceptResponses := acceptResponses[m.rnd.value := bucket];
      if |bucket| > n / 2 {
        decided := true;
        return [Decision(m.endpoints)];
      }
      return [];
    }

    method RegisterVote(vote: Proposal)
      modifies this
      ensures State() == RegisterFastRoundVote(old(State()), vote)
    {
      if rnd.round > 1 {
        return;
      }
      rnd := FAST_RANK;
      vrnd := rnd;
      vval := vote;
    }
  }
}
