/** The consensus messages of the wire protocol, with the optional fields protobuf gives them. */
module Messages {
  import opened Types
  import opened CoordinatorRule

  datatype Phase1aMessage = Phase1aMessage(configurationId: int, sender: Option<Endpoint>, rank: Option<Rank>)

  datatype Phase2aMessage = Phase2aMessage(
    configurationId: int, sender: Option<Endpoint>, rnd: Option<Rank>, vval: Proposal)

  datatype Phase2bMessage = Phase2bMessage(
    configurationId: int, rnd: Option<Rank>, sender: Option<Endpoint>, endpoints: Proposal)

  datatype FastRoundPhase2bMessage = FastRoundPhase2bMessage(
    configurationId: int, endpoints: Proposal, sender: Option<Endpoint>)

  /** `RapidRequest` content; `Other` stands for every request that is not about consensus. */
  datatype Request =
    | Phase1a(prepare: Phase1aMessage)
    | Phase1b(promise: Phase1bMessage)
    | Phase2a(order: Phase2aMessage)
    | Phase2b(accept: Phase2bMessage)
    | FastVote(vote: FastRoundPhase2bMessage)
    | Other
  {
    /** The configuration a consensus request was stamped with. */
    function Configuration(): Option<int> {
      match this
      case Phase1a(m) => Some(m.configurationId)
      case Phase1b(m) => Some(m.configurationId)
      case Phase2a(m) => Some(m.configurationId)
      case Phase2b(m) => Some(m.configurationId)
      case FastVote(m) => Some(m.configurationId)
      case Other => None
    }
  }

  /** One effect of a transition: `PaxosOutgoing` and `FastOutgoing`. The fallback's delay is
      random and is not part of the model. */
  datatype Outgoing =
    | Broadcast(request: Request)
    | Unicast(target: Endpoint, request: Request)
    | ScheduleClassicFallback
    | Decision(value: Proposal)
}
