/** The membership service actor (the files under service/) as a sequential object: alerts turn
    into at most one vote per configuration, decisions turn into the next configuration. */
module Service {
  import opened Types
  import opened Listings
  import opened Hashing
  import opened RingOrder
  import opened Membership
  import opened MembershipView
  import opened DetectorState
  import opened DetectorSweep
  import opened CutDetector
  import opened Alerts
  import opened Joiners
  import opened CanonicalVote
  import opened Messages
  import opened FastConsensus
  import VC = ViewChange

  datatype Lifecycle = Running | AnnouncedProposal | ShuttingDown

  /** `ClusterStatusChange`, published as `ViewChange` and, when we were removed, as `Kicked`. */
  datatype StatusEvent = StatusEvent(configurationId: int, membership: seq<Endpoint>, delta: seq<VC.StatusChange>)

  /** The reply `respond_to_joiners` sends. */
  datatype JoinReply = JoinReply(
    configurationId: int, endpoints: seq<Endpoint>, identifiers: seq<NodeId>, metadata: map<Endpoint, VC.Metadata>)

  // ---------------------------------------------------------------- votes

  /** `address_hash_seed_zero`, in terms of the ring-0 key: the same bits, unsigned. */
  function VoteKey(key: Keying): SortKey { UnsignedOf((e: Endpoint) => key(0, e)) }

  lemma VoteKeyIsHash(xx: Hash64, e: Endpoint)
    ensures VoteKey(AddressKey(xx))(e) == AddressHash(xx, 0, e)
  {
    assert AddressKey(xx)(0, e) == Signed(AddressHash(xx, 0, e));
  }

  /** A vote for the cut `s`. */
  ghost predicate IsVote(key: Keying, vote: Proposal, s: set<Endpoint>) {
    SortedBy(VoteKey(key), vote) && Lists(vote, s)
  }

  /** Nodes whose batches emitted the same endpoints vote with the identical list. */
  lemma SameCutSameVote(key: Keying, s: set<Endpoint>, p: Proposal, q: Proposal)
    requires IsVote(key, p, s) && IsVote(key, q, s) && CollisionFree(key, 0, s)
    requires forall e :: -0x8000_0000_0000_0000 <= key(0, e) < 0x8000_0000_0000_0000
    ensures p == q
  {
    forall e, f | e in s && f in s ensures !Tie(VoteKey(key), e, f) {
      assert !Collide(key, 0, e, f);
    }
    SortedListingUnique(VoteKey(key), p, q, s);
  }

  /** All of a batch's cut is warranted. */
  lemma AllWarranted(d: Detector, emitted: set<Endpoint>, heard: seq<AlertMessage>, valid: seq<AlertMessage>,
                     w: Surroundings, members: set<Endpoint>, configurationId: int)
    requires Inv(d, emitted) && Covers(w, Aggregated(d, valid).preProposal)
    requires Grounded(Aggregated(d, valid), heard, members, configurationId)
    ensures forall n :: n in AggregatedCut(d, valid) + ImplicitCut(Aggregated(d, valid), w) ==>
              Warranted(heard, members, n)
  {
    forall n | n in AggregatedCut(d, valid) + ImplicitCut(Aggregated(d, valid), w)
      ensures Warranted(heard, members, n)
    {
      CutIsWarranted(d, emitted, heard, valid, w, members, configurationId, n);
    }
  }

  /** `m` was reported on at least `h` rings, those counted on which its observer is itself suspected. */
  predicate TipsOver(d: Detector, w: Surroundings, m: Endpoint)
    requires m in w.observers
  {
    var obs := w.observers[m];
    |Rings(d, m) + (set j | 0 <= j < |obs| && obs[j] in d.proposal + d.preProposal)| >= d.h
  }

  /** What is voted for: what the alerts made the detector emit and, once a failure was seen and every host
      then in flux tips over, everything suspected. */
  lemma VotedFor(key: Keying, before: Detector, found: Findings, vote: Proposal, n: Endpoint)
    requires found.Explains(before) && IsVote(key, vote, found.cut)
    ensures n in vote <==>
            || n in AggregatedCut(before, found.valid)
            || (&& found.after.seenLinkDown && n in found.after.proposal + found.after.preProposal
                && forall m :: m in found.after.preProposal ==> TipsOver(found.after, found.around, m))
  {
    var d, w := found.after, found.around;
    forall m | m in d.preProposal ensures TipsOver(d, w, m) <==> |Charged(d, m, w, Suspects(d))| >= d.h {
      assert Implied(w.observers[m], Suspects(d), 0)
          == set j | 0 <= j < |w.observers[m]| && w.observers[m][j] in d.proposal + d.preProposal;
    }
  }

  /** Once a batch holds the failure alerts of all observers of a member, and nothing else that counts, an
      actor with a fresh detector votes for that member alone. */
  lemma ObserversVoteOut(key: Keying, s: set<Endpoint>, subject: Endpoint, id: int, d0: Detector,
                         batch: seq<AlertMessage>, found: Findings, vote: Proposal)
    requires AllCollisionFree(key, d0.k, s) && |s| >= 2 && subject in s
    requires Watermarks(d0.k, d0.h, d0.l) && d0 == Fresh(d0.k, d0.h, d0.l)
    requires AllObserversTell(key, d0.k, s, subject, id, batch) && Passed(batch, found.valid, s, id)
    requires found.Explains(d0) && IsVote(key, vote, found.cut)
    ensures vote == [subject]
  {
    ObserversEvict(key, s, subject, id, d0, batch, found.valid);
    assert found.cut == {subject};
    assert subject in vote;
    AllTheSame(vote, subject);
  }

  // ---------------------------------------------------------------- view changes

  /** The reply is about the view `sender`. */
  ghost predicate ReplyFor(sender: View, reply: JoinReply)
    reads sender
  {
    && sender.Valid() && reply.configurationId == sender.idOf(sender.Abstract())
    && reply.endpoints == Ordered(RingOf(sender.key, 0, sender.allNodes))
    && reply.identifiers == IdentifierList(sender.identifiers)
  }

  /** A joiner's view, booted from the reply: the sender's rings and configuration id, whatever the
      sender's history. */
  method ViewOfReply(k: nat, xx: Hash64, reply: JoinReply, ghost sender: View) returns (v: View)
    requires ReplyFor(sender, reply) && sender.k == k && sender.xx == xx && sender.key == AddressKey(xx)
    ensures fresh(v) && v.Valid() && v.k == k && v.key == sender.key && v.universe == sender.universe
    ensures v.Abstract() == sender.Abstract() && v.rings == sender.rings && v.cachedObservers == map[]
    ensures v.idOf(v.Abstract()) == reply.configurationId && v.idOf == IdsOf(xx, AddressKey(xx))
  {
    BootstrapRoundTrip(sender.key, sender.Abstract());
    OrderedLists(sender.key, 0, sender.allNodes);
    v := new View(k, xx, reply.identifiers, reply.endpoints, sender.universe);
    v.HistoryIndependent(sender);
  }

  /** `join` from the reply on: view, detector, the metadata of all and of oneself, and an actor with
      an instance for the current configuration. */
  method Join(me: Endpoint, k: nat, h: nat, l: nat, xx: Hash64, reply: JoinReply, own: VC.Metadata,
              nodeIndex: Endpoint -> int, ghost sender: View)
    returns (s: MembershipService)
    requires ReplyFor(sender, reply) && sender.k == k && sender.xx == xx && sender.key == AddressKey(xx)
    requires Watermarks(k, h, l) && reply.metadata.Keys <= sender.allNodes && (own != map[] ==> me in sender.allNodes)
    ensures NewActor(s, me, nodeIndex, h, l)
    ensures s.view.rings == old(sender.rings) && s.Current() == reply.configurationId
    ensures s.view.idOf == IdsOf(xx, AddressKey(xx))
    ensures s.State() == VC.Service(old(sender.Abstract()), WithOwn(reply.metadata, me, own), map[], map[])
    ensures OwnAdded(reply.metadata, me, own, s.metadata)
  {
    WithOwnAdds(reply.metadata, me, own);
    var view := ViewOfReply(k, xx, reply, sender);
    s := Finish(me, view, h, l, WithOwn(reply.metadata, me, own), nodeIndex);
  }

  /** The metadata of the reply and of oneself, unless one has none. */
  function WithOwn(tags: map<Endpoint, VC.Metadata>, me: Endpoint, own: VC.Metadata): map<Endpoint, VC.Metadata> {
    if own == map[] then tags else VC.PutIfAbsent(tags, me, own)
  }

  /** What the reply says of everybody, oneself included, stands; of oneself one adds what one has. */
  ghost predicate OwnAdded(tags: map<Endpoint, VC.Metadata>, me: Endpoint, own: VC.Metadata,
                           all: map<Endpoint, VC.Metadata>) {
    && (forall n {:trigger Held(all, n)} :: n != me || n in tags ==> Held(all, n) == Held(tags, n))
    && (me !in tags ==> Held(all, me) == if own == map[] then None else Some(own))
  }

  lemma WithOwnAdds(tags: map<Endpoint, VC.Metadata>, me: Endpoint, own: VC.Metadata)
    ensures OwnAdded(tags, me, own, WithOwn(tags, me, own))
  {
  }

  /** A running actor with a new detector and an instance that has done nothing. */
  ghost predicate NewActor(s: MembershipService, me: Endpoint, nodeIndex: Endpoint -> int, h: nat, l: nat)
    reads s, s.view, s.detector, s.Instance()
  {
    && s.Valid() && s.Started() && s.lifecycle == Running && s.proposedHere == 0
    && s.myAddr == me && s.nodeIndex == nodeIndex && s.detector.State() == Fresh(s.view.k, h, l)
    && s.heard == [] && s.parked == map[]
  }

  /** `finish_cluster`: an actor with a new detector, and an instance for its first configuration. */
  method Finish(me: Endpoint, view: View, h: nat, l: nat, tags: map<Endpoint, VC.Metadata>,
                nodeIndex: Endpoint -> int)
    returns (s: MembershipService)
    requires view.Valid() && Watermarks(view.k, h, l) && tags.Keys <= view.allNodes
    modifies view`configurationId, view`configurationDirty
    ensures fresh(s) && s.view == view && NewActor(s, me, nodeIndex, h, l)
    ensures s.view.rings == old(view.rings) && s.Current() == old(view.idOf(view.Abstract()))
    ensures s.State() == VC.Service(old(view.Abstract()), tags, map[], map[])
  {
    var detector := new MultiNodeCutDetector(view.k, h, l);
    FreshGrounded(view.k, h, l, view.allNodes, view.idOf(view.Abstract()));
    s := new MembershipService(me, view, detector, tags, nodeIndex, []);
    s.Renew();
  }

  predicate BoundTo(fp: FastPaxos?, me: Endpoint, index: int, configurationId: int, size: nat) {
    fp != null ==>
      && fp.myAddr == me && fp.paxos.nodeIndex == index
      && fp.configurationId == configurationId && fp.membershipSize == size
  }

  /** How a batch led to a cut: the alerts that passed, the detector after them, what the view
      answered about the hosts then in flux. */
  datatype Findings = Findings(valid: seq<AlertMessage>, after: Detector, around: Surroundings, cut: set<Endpoint>)
  {
    ghost predicate Explains(before: Detector) {
      && after == Aggregated(before, valid) && Covers(around, after.preProposal)
      && cut == AggregatedCut(before, valid) + ImplicitCut(after, around)
    }
  }

  /** Where an actor stands before effects are dispatched. */
  datatype Standing = Standing(
    fastPaxos: FastPaxos?, lifecycle: Lifecycle, proposedHere: nat, armed: bool, detector: Detector,
    emitted: set<Endpoint>, heard: seq<AlertMessage>)

  class MembershipService {
    const myAddr: Endpoint
    const view: View
    const detector: MultiNodeCutDetector
    /** `stable_node_index`. */
    const nodeIndex: Endpoint -> int
    var metadata: map<Endpoint, VC.Metadata>
    var joinerUuid: map<Endpoint, NodeId>
    var joinerMetadata: map<Endpoint, VC.Metadata>
    /** Tokens of the callers whose join reply is pending. */
    var parked: map<Endpoint, seq<nat>>
    var lifecycle: Lifecycle
    var fastPaxos: FastPaxos?
    /** `pending_fallback`: a fallback timer was armed for the installed instance. */
    var pendingFallback: bool
    /** How often `propose` was called on the installed instance. */
    ghost var proposedHere: nat
    /** The alerts that passed since the detector was last cleared. */
    ghost var heard: seq<AlertMessage>

    ghost function State(): VC.Service
      reads this`metadata, this`joinerUuid, this`joinerMetadata, view`allNodes, view`identifiers
    {
      VC.Service(view.Abstract(), metadata, joinerUuid, joinerMetadata)
    }

    /** The current configuration id. */
    ghost function Current(): int
      reads view`allNodes, view`identifiers
    {
      view.idOf(view.Abstract())
    }

    /** The installed instance is bound to the current configuration. */
    ghost predicate Bound()
      reads this`fastPaxos, view`allNodes, view`identifiers
    {
      BoundTo(fastPaxos, myAddr, nodeIndex(myAddr), Current(), |view.allNodes|)
    }

    ghost function Instance(): set<object>
      reads this`fastPaxos
    {
      if fastPaxos == null then {} else {fastPaxos, fastPaxos.paxos}
    }

    /** The installed instance is in its initial state for the current configuration. */
    ghost predicate Started()
      reads this`fastPaxos, Instance(), view`allNodes, view`identifiers
    {
      fastPaxos != null && fastPaxos.State() == InitFast(myAddr, Current(), |view.allNodes|)
    }

    /** The detector's reports come of what was heard in this configuration. */
    ghost predicate Sourced()
      reads this`heard, detector, view`allNodes, view`identifiers
    {
      Grounded(detector.State(), heard, view.allNodes, Current())
    }

    /** At most one proposal per installed instance, which then has its fallback timer; while it is
        pending no other can arise. The detector holds reports about the hosts that acceptable alerts of
        this configuration told of, and no others. */
    ghost predicate Valid()
      reads this, view, detector
    {
      && view.Valid() && detector.Valid() && VC.MetadataOk(State()) && Bound()
      && proposedHere <= 1 && (proposedHere == 1 ==> lifecycle != Running && pendingFallback)
      && Sourced()
    }

    constructor (myAddr: Endpoint, view: View, detector: MultiNodeCutDetector,
                 metadata: map<Endpoint, VC.Metadata>, nodeIndex: Endpoint -> int, ghost heard: seq<AlertMessage>)
      requires view.Valid() && detector.Valid() && metadata.Keys <= view.allNodes
      requires Grounded(detector.State(), heard, view.allNodes, view.idOf(view.Abstract()))
      ensures Valid() && this.view == view && this.detector == detector && lifecycle == Running
      ensures this.myAddr == myAddr && this.nodeIndex == nodeIndex && fastPaxos == null
      ensures proposedHere == 0 && !pendingFallback && this.heard == heard && parked == map[]
      ensures State() == VC.Service(view.Abstract(), metadata, map[], map[])
    {
      this.myAddr, this.view, this.detector, this.nodeIndex := myAddr, view, detector, nodeIndex;
      this.metadata, joinerUuid, joinerMetadata, parked := metadata, map[], map[], map[];
      lifecycle, fastPaxos, pendingFallback, proposedHere := Running, null, false, 0;
      this.heard := heard;
    }

    /** `reinstate_fast_paxos`. */
    method ReinstateFastPaxos()
      requires view.Valid()
      modifies this`fastPaxos, this`pendingFallback, this`proposedHere
      modifies view`configurationId, view`configurationDirty
      ensures view.Valid() && Bound() && Started() && proposedHere == 0 && !pendingFallback
      ensures fresh(fastPaxos) && fresh(fastPaxos.paxos)
    {
      pendingFallback := false;
      var id := view.CurrentConfigurationId();
      var size := view.MembershipSize();
      fastPaxos := new FastPaxos(myAddr, id, size, nodeIndex(myAddr));
      proposedHere := 0;
    }

    /** One endpoint of the loop of `decide_view_change`. */
    method DecideOne(node: Endpoint) returns (change: seq<VC.StatusChange>)
      requires view.Valid() && node in view.universe && VC.MetadataOk(State())
      modifies this`metadata, this`joinerUuid, this`joinerMetadata
      modifies view`rings, view`allNodes, view`cachedObservers, view`identifiers, view`configurationDirty
      ensures view.Valid() && VC.MetadataOk(State())
      ensures State() == VC.DecideNode(old(State()), node) && change == VC.NodeChange(old(State()), node)
    {
      change := [];
      var present := view.IsHostPresent(node);
      if present {
        change := [VC.StatusChange(node, false, VC.Lookup(metadata, node))];
        var _ := view.RingDelete(node);
        metadata := metadata - {node};
      } else if node in joinerUuid {
        var id := joinerUuid[node];
        joinerUuid := joinerUuid - {node};
        var tags := if node in joinerMetadata then joinerMetadata[node] else map[];
        joinerMetadata := joinerMetadata - {node};
        var added := view.RingAdd(node, id);
        if added.Answered? {
          if tags != map[] { metadata := VC.PutIfAbsent(metadata, node, tags); }
          change := [VC.StatusChange(node, true, tags)];
        }
      }
    }

    /** The loop of `decide_view_change`. */
    method DecideAll(proposal: Proposal) returns (delta: seq<VC.StatusChange>)
      requires view.Valid() && VC.MetadataOk(State()) && forall e :: e in proposal ==> e in view.universe
      modifies this`metadata, this`joinerUuid, this`joinerMetadata
      modifies view`rings, view`allNodes, view`cachedObservers, view`identifiers, view`configurationDirty
      ensures view.Valid() && VC.MetadataOk(State())
      ensures State() == VC.Decide(old(State()), proposal) && delta == VC.Delta(old(State()), proposal)
    {
      delta := [];
      for i := 0 to |proposal|
        invariant view.Valid() && VC.MetadataOk(State())
        invariant VC.Decide(State(), proposal[i..]) == VC.Decide(old(State()), proposal)
        invariant delta + VC.Delta(State(), proposal[i..]) == VC.Delta(old(State()), proposal)
      {
        DecideStep(State(), proposal, i, delta);
        var change := DecideOne(proposal[i]);
        delta := delta + change;
      }
    }

    /** `decide_view_change`: toggle, report, and start afresh in the new configuration. `kicked`
        says that we are no longer a member; `told` are the joiners that receive `reply`. */
    method DecideViewChange(proposal: Proposal)
      returns (event: StatusEvent, kicked: bool, told: seq<nat>, reply: JoinReply)
      requires Valid() && forall e :: e in proposal ==> e in view.universe
      modifies this, view, detector
      ensures Valid() && State() == VC.Decide(old(State()), proposal)
      ensures lifecycle == Running && proposedHere == 0 && Started() && fresh(fastPaxos) && fresh(fastPaxos.paxos)
      ensures !pendingFallback
      ensures detector.State() == Fresh(detector.k, detector.h, detector.l)
      ensures event == EventFor(VC.Delta(old(State()), proposal)) && (kicked <==> myAddr !in view.allNodes)
      ensures told == Told(old(parked), proposal) && parked == Unparked(old(parked), proposal)
      ensures AllTold(old(parked), proposal, told, parked)
      ensures ReplyFor(view, reply) && reply.metadata == metadata
      ensures event.configurationId == Current() && Lists(event.membership, view.allNodes)
    {
      event := ApplyDecision(proposal);
      StartConfiguration();
      var present := view.IsHostPresent(myAddr);
      kicked := !present;
      told, reply := RespondToJoiners(proposal, event.membership);
    }

    /** The new view and the event about it. */
    method ApplyDecision(proposal: Proposal) returns (event: StatusEvent)
      requires view.Valid() && VC.MetadataOk(State()) && forall e :: e in proposal ==> e in view.universe
      modifies this`metadata, this`joinerUuid, this`joinerMetadata, view
      ensures view.Valid() && VC.MetadataOk(State())
      ensures State() == VC.Decide(old(State()), proposal) && event == EventFor(VC.Delta(old(State()), proposal))
      ensures event.configurationId == Current() && Lists(event.membership, view.allNodes)
    {
      var delta := DecideAll(proposal);
      var id := view.CurrentConfigurationId();
      var ring := view.GetRing(0);
      OrderedLists(view.key, 0, view.allNodes);
      event := StatusEvent(id, ring.value, delta);
    }

    /** A clean detector and a fresh consensus instance for the current view. */
    method StartConfiguration()
      requires view.Valid() && detector.Valid() && VC.MetadataOk(State())
      modifies this`lifecycle, this`fastPaxos, this`pendingFallback, this`proposedHere, this`heard, detector
      modifies view`configurationId, view`configurationDirty
      ensures Valid() && State() == old(State()) && parked == old(parked)
      ensures lifecycle == Running && proposedHere == 0 && Started() && fresh(fastPaxos) && fresh(fastPaxos.paxos)
      ensures !pendingFallback && heard == []
      ensures detector.State() == Fresh(detector.k, detector.h, detector.l)
    {
      Forget();
      lifecycle := Running;
      ReinstateFastPaxos();
    }

    /** A clean detector, to which nothing was reported. */
    method Forget()
      requires detector.Valid()
      modifies this`heard, detector
      ensures detector.Valid() && Sourced() && heard == []
      ensures detector.State() == Fresh(detector.k, detector.h, detector.l)
    {
      detector.Clear();
      heard := [];
      FreshGrounded(detector.k, detector.h, detector.l, view.allNodes, Current());
    }

    /** The event a view change publishes, given its delta. */
    ghost function EventFor(delta: seq<VC.StatusChange>): StatusEvent
      reads view
      requires view.Valid()
    {
      StatusEvent(view.idOf(view.Abstract()), Ordered(RingOf(view.key, 0, view.allNodes)), delta)
    }

    /** The join reply for the current view. */
    ghost function Reply(): JoinReply
      reads this, view
      requires view.Valid()
    {
      JoinReply(view.idOf(view.Abstract()), Ordered(RingOf(view.key, 0, view.allNodes)),
                IdentifierList(view.identifiers), metadata)
    }

    method RespondToJoiners(proposal: Proposal, membership: seq<Endpoint>) returns (told: seq<nat>, reply: JoinReply)
      requires Valid() && membership == Ordered(RingOf(view.key, 0, view.allNodes))
      modifies this`parked, view`configurationId, view`configurationDirty
      ensures Valid() && reply == Reply() && State() == old(State()) && (old(Started()) ==> Started())
      ensures ReplyFor(view, reply) && reply.metadata == metadata
      ensures told == Told(old(parked), proposal) && parked == Unparked(old(parked), proposal)
      ensures AllTold(old(parked), proposal, told, parked)
    {
      reply := ReplyNow(membership);
      told := TellJoiners(proposal);
    }

    method ReplyNow(membership: seq<Endpoint>) returns (reply: JoinReply)
      requires view.Valid() && membership == Ordered(RingOf(view.key, 0, view.allNodes))
      modifies view`configurationId, view`configurationDirty
      ensures view.Valid() && reply == Reply() && ReplyFor(view, reply) && reply.metadata == metadata
    {
      var id := view.CurrentConfigurationId();
      var ids := view.CurrentIdentifiers();
      reply := JoinReply(id, membership, ids, metadata);
    }

    method TellJoiners(proposal: Proposal) returns (told: seq<nat>)
      modifies this`parked
      ensures told == Told(old(parked), proposal) && parked == Unparked(old(parked), proposal)
      ensures AllTold(old(parked), proposal, told, parked)
    {
      told := [];
      for i := 0 to |proposal|
        invariant told + Told(parked, proposal[i..]) == Told(old(parked), proposal)
        invariant Unparked(parked, proposal[i..]) == Unparked(old(parked), proposal)
      {
        assert proposal[i..][1..] == proposal[i + 1..];
        var here := if proposal[i] in parked then parked[proposal[i]] else [];
        assert told + Told(parked, proposal[i..])
            == (told + here) + Told(parked - {proposal[i]}, proposal[i + 1..]);
        told := told + here;
        parked := parked - {proposal[i]};
      }
      ToldIsAllTold(old(parked), proposal);
    }

    // -------------------------------------------------------------- alerts and votes

    /** What is known of joiners after the alerts `valid` of `batch` passed, exactly the acceptable ones
        in order: for each joiner what the last of them said, and nothing new of members. */
    ghost predicate TaughtBy(batch: seq<AlertMessage>, valid: seq<AlertMessage>, ids: map<Endpoint, NodeId>,
                             tags: map<Endpoint, VC.Metadata>, members: set<Endpoint>, current: int)
      reads this`joinerUuid, this`joinerMetadata
    {
      && Passed(batch, valid, members, current)
      && IdsLearnt(ids, valid, joinerUuid) && TagsLearnt(tags, valid, joinerMetadata)
      && Undisturbed(ids, joinerUuid, members) && Undisturbed(tags, joinerMetadata, members)
    }

    /** The first pass of `handle_batched_alerts`. */
    method Filter(batch: seq<AlertMessage>, current: int) returns (valid: seq<AlertMessage>)
      modifies this`joinerUuid, this`joinerMetadata
      ensures valid == ValidAlerts(batch, view.allNodes, current)
      ensures TaughtBy(batch, valid, old(joinerUuid), old(joinerMetadata), view.allNodes, current)
    {
      valid := [];
      for i := 0 to |batch|
        invariant valid + ValidAlerts(batch[i..], view.allNodes, current) == ValidAlerts(batch, view.allNodes, current)
        invariant joinerUuid == LearnIds(old(joinerUuid), valid)
        invariant joinerMetadata == LearnAllTags(old(joinerMetadata), valid)
      {
        assert batch[i..][1..] == batch[i + 1..];
        if IsValid(batch[i], view.allNodes, current) {
          LearnMore(old(joinerUuid), old(joinerMetadata), valid, batch[i]);
          joinerUuid := LearnId(joinerUuid, batch[i]);
          joinerMetadata := LearnTags(joinerMetadata, batch[i]);
          valid := valid + [batch[i]];
        }
      }
      BatchTeaches(batch, view.allNodes, current, old(joinerUuid), old(joinerMetadata));
    }

    /** The first pass leaves everything else as it was. */
    method Admit(batch: seq<AlertMessage>, current: int) returns (valid: seq<AlertMessage>)
      requires Valid()
      modifies this`joinerUuid, this`joinerMetadata
      ensures Valid() && TaughtBy(batch, valid, old(joinerUuid), old(joinerMetadata), view.allNodes, current)
    {
      valid := Filter(batch, current);
    }

    /** One alert, and what it emits as a set. */
    method AggregateAlert(alert: Alert) returns (cut: set<Endpoint>)
      requires detector.Valid()
      modifies detector
      ensures detector.Valid() && detector.State() == AfterAll(old(detector.State()), ReportsOf(alert))
      ensures cut == Emitted(old(detector.State()), ReportsOf(alert)) && detector.emitted == old(detector.emitted) + cut
    {
      var emitted := detector.Aggregate(alert);
      cut := set e | e in emitted;
    }

    /** The second pass: everything the alerts make the detector emit. */
    method AggregateAll(valid: seq<AlertMessage>) returns (cut: set<Endpoint>)
      requires detector.Valid()
      modifies detector
      ensures detector.Valid()
      ensures detector.State() == Aggregated(old(detector.State()), valid)
      ensures cut == AggregatedCut(old(detector.State()), valid) && detector.emitted == old(detector.emitted) + cut
    {
      cut := {};
      ghost var start := detector.emitted;
      for i := 0 to |valid|
        invariant detector.Valid() && detector.emitted == start + cut
        invariant Aggregated(detector.State(), valid[i..]) == Aggregated(old(detector.State()), valid)
        invariant cut + AggregatedCut(detector.State(), valid[i..]) == AggregatedCut(old(detector.State()), valid)
      {
        AggregateStep(detector.State(), valid, i, cut, start);
        var one := AggregateAlert(valid[i].edge);
        cut := cut + one;
      }
    }

    /** `handle_batched_alerts`: the vote is the cut of the batch in canonical order. `found` says
        how the cut came about; nothing is looked at while a proposal is pending. Whatever is voted
        for was reported in this configuration, down if it is a member and up if not. */
    method HandleBatchedAlerts(batch: seq<AlertMessage>) returns (vote: Proposal, ghost found: Findings)
      requires Valid() && lifecycle != ShuttingDown
      modifies this`joinerUuid, this`joinerMetadata, this`lifecycle, this`heard, detector
      modifies view`configurationId, view`configurationDirty, view`cachedObservers
      ensures Valid() && view.Abstract() == old(view.Abstract())
      ensures old(lifecycle) == AnnouncedProposal ==>
                vote == [] && State() == old(State()) && detector.State() == old(detector.State())
                && lifecycle == AnnouncedProposal && heard == old(heard)
      ensures old(lifecycle) == Running ==>
                && found.Explains(old(detector.State())) && heard == old(heard) + found.valid
                && TaughtBy(batch, found.valid, old(joinerUuid), old(joinerMetadata), view.allNodes, Current())
                && found.around == old(Around(view, found.after.preProposal))
                && IsVote(view.key, vote, found.cut) && detector.emitted == old(detector.emitted) + found.cut
                && lifecycle == (if found.cut == {} then Running else AnnouncedProposal)
      ensures forall n :: n in vote ==> Warranted(heard, view.allNodes, n)
    {
      vote, found := [], Findings([], detector.State(), Surroundings(map[], {}), {});
      var current := view.CurrentConfigurationId();
      if lifecycle == AnnouncedProposal { return; }
      vote, found := RunBatch(batch, current);
    }

    method RunBatch(batch: seq<AlertMessage>, current: int) returns (vote: Proposal, ghost found: Findings)
      requires Valid() && lifecycle == Running && current == Current()
      modifies this`joinerUuid, this`joinerMetadata, this`lifecycle, this`heard, detector, view`cachedObservers
      ensures Valid() && view.Abstract() == old(view.Abstract())
      ensures found.Explains(old(detector.State())) && heard == old(heard) + found.valid
      ensures TaughtBy(batch, found.valid, old(joinerUuid), old(joinerMetadata), view.allNodes, current)
      ensures found.around == old(Around(view, found.after.preProposal))
      ensures IsVote(view.key, vote, found.cut) && detector.emitted == old(detector.emitted) + found.cut
      ensures lifecycle == if found.cut == {} then Running else AnnouncedProposal
      ensures forall n :: n in vote ==> Warranted(heard, view.allNodes, n)
    {
      var early;
      ghost var valid;
      early, valid := FirstPasses(batch, current);
      ghost var after, around := detector.State(), Around(view, detector.preProposal);
      AllWarranted(old(detector.State()), old(detector.emitted), heard, valid, around, view.allNodes, current);
      ghost var implied;
      vote, implied := FinishBatch(early);
      UnionAssociates(old(detector.emitted), early, implied);
      found := Findings(valid, after, around, early + implied);
    }

    method FirstPasses(batch: seq<AlertMessage>, current: int) returns (early: set<Endpoint>,
                       ghost valid: seq<AlertMessage>)
      requires Valid() && lifecycle == Running && current == Current()
      modifies this`joinerUuid, this`joinerMetadata, this`heard, detector
      ensures Valid() && heard == old(heard) + valid
      ensures TaughtBy(batch, valid, old(joinerUuid), old(joinerMetadata), view.allNodes, current)
      ensures detector.State() == Aggregated(old(detector.State()), valid)
      ensures early == AggregatedCut(old(detector.State()), valid) && detector.emitted == old(detector.emitted) + early
      ensures Covers(Around(view, detector.preProposal), detector.preProposal)
    {
      var passed := Admit(batch, current);
      valid := passed;
      early := Hear(batch, passed, current);
      AroundCovers(view, detector.preProposal);
    }

    /** The second pass over the alerts that passed. */
    method Hear(ghost batch: seq<AlertMessage>, valid: seq<AlertMessage>, ghost current: int)
      returns (early: set<Endpoint>)
      requires Valid() && current == Current() && Passed(batch, valid, view.allNodes, current)
      modifies this`heard, detector
      ensures Valid() && heard == old(heard) + valid
      ensures detector.State() == Aggregated(old(detector.State()), valid)
      ensures early == AggregatedCut(old(detector.State()), valid) && detector.emitted == old(detector.emitted) + early
    {
      BatchGrounds(detector.State(), heard, batch, valid, view.allNodes, current);
      early := AggregateAll(valid);
      heard := heard + valid;
    }

    /** Implicit detection, and the announcement of what there is to announce. */
    method FinishBatch(early: set<Endpoint>) returns (vote: Proposal, ghost implied: set<Endpoint>)
      requires Valid() && lifecycle == Running
      modifies this`lifecycle, detector, view`cachedObservers
      ensures Valid() && view.Abstract() == old(view.Abstract())
      ensures Covers(old(Around(view, detector.preProposal)), old(detector.preProposal))
      ensures implied == ImplicitCut(old(detector.State()), old(Around(view, detector.preProposal)))
      ensures detector.emitted == old(detector.emitted) + implied && IsVote(view.key, vote, early + implied)
      ensures lifecycle == if early + implied == {} then Running else AnnouncedProposal
    {
      var found := DetectImplicit();
      implied := found;
      var all := early + found;
      if all != {} {
        lifecycle := AnnouncedProposal;
      }
      vote := Canonical(all);
    }

    method DetectImplicit() returns (implied: set<Endpoint>)
      requires Valid()
      modifies detector, view`cachedObservers
      ensures Valid()
      ensures Covers(old(Around(view, detector.preProposal)), old(detector.preProposal))
      ensures implied == ImplicitCut(old(detector.State()), old(Around(view, detector.preProposal)))
      ensures detector.emitted == old(detector.emitted) + implied
    {
      AroundCovers(view, detector.preProposal);
      var list, order := detector.InvalidateFailingEdges(view);
      SweepGrounds(old(detector.State()), old(detector.emitted), heard, order,
                   old(Around(view, detector.preProposal)), view.allNodes, Current());
      implied := set e | e in list;
    }

    /** The endpoints of a cut, out of a hash set, sorted by unsigned hash. */
    method Canonical(cut: set<Endpoint>) returns (vote: Proposal)
      ensures IsVote(view.key, vote, cut) && (vote == [] <==> cut == {})
    {
      var ordered := SomeOrder(cut);
      VoteIsSortedCut(VoteKey(view.key), ordered, cut);
      vote := SortBy(VoteKey(view.key), ordered);
      assert vote != [] ==> vote[0] in vote;
    }

    /** `handle_edge_failure`: the alert to enqueue about a failed subject, unless the notice is of another
        configuration. Its rings are those on which we watch the subject, each once. */
    method OnEdgeFailure(subject: Endpoint, configurationId: int) returns (alert: Option<AlertMessage>)
      requires Valid()
      modifies view`configurationId, view`configurationDirty
      ensures Valid() && State() == old(State())
      ensures alert.Some? <==> configurationId == Current()
      ensures alert.Some? ==>
                alert.value == FailureAlert(view.key, view.k, view.allNodes, myAddr, subject, Current())
    {
      var current := view.CurrentConfigurationId();
      if configurationId != current { return None; }
      var rings := WatchedRings(subject);
      alert := Some(AlertMessage(Alert(Some(myAddr), Some(subject), true, rings), current, None, None));
    }

    /** The rings on which we watch `subject`, none if we are not a member. */
    method WatchedRings(subject: Endpoint) returns (rings: seq<int>)
      requires view.Valid()
      ensures rings == if myAddr in view.allNodes then RingNumbers(view.key, view.k, view.allNodes, myAddr, subject)
                       else []
    {
      var answer := view.GetRingNumbers(myAddr, subject);
      return if answer.Answered? then answer.value else [];
    }

    /** `handle_join` for a request of this configuration: the caller waits, what it brings is learnt, and
        an alert says that it is there. For another configuration nothing changes. */
    method OnJoin(sender: Endpoint, nodeId: NodeId, tags: Option<VC.Metadata>, configurationId: int,
                  rings: seq<int>, token: nat)
      returns (alert: Option<AlertMessage>)
      requires Valid()
      modifies this`parked, this`joinerUuid, this`joinerMetadata, view`configurationId, view`configurationDirty
      ensures Valid() && view.Abstract() == old(view.Abstract()) && metadata == old(metadata)
      ensures alert.Some? <==> configurationId == Current()
      ensures alert.None? ==> State() == old(State()) && parked == old(parked)
      ensures alert.Some? ==>
                && parked == Park(old(parked), sender, token) && joinerUuid == old(joinerUuid)[sender := nodeId]
                && joinerMetadata == (if tags.Some? then old(joinerMetadata)[sender := tags.value]
                                      else old(joinerMetadata))
                && alert.value == AlertMessage(Alert(Some(myAddr), Some(sender), false, rings), configurationId,
                                               Some(nodeId), tags)
                && (Acceptable(alert.value, view.allNodes, Current()) <==> sender !in view.allNodes)
    {
      var current := view.CurrentConfigurationId();
      if configurationId != current { return None; }
      parked := Park(parked, sender, token);
      joinerUuid := joinerUuid[sender := nodeId];
      if tags.Some? {
        joinerMetadata := joinerMetadata[sender := tags.value];
      }
      alert := Some(AlertMessage(Alert(Some(myAddr), Some(sender), false, rings), current, Some(nodeId), tags));
    }

    // -------------------------------------------------------------- consensus dispatch, commands

    /** `propose`, which the actor calls with a fresh vote: the first and only one of the instance, of
        which a fallback timer comes. */
    method ProposeVote(vote: Proposal) returns (sent: seq<Outgoing>)
      requires Valid() && lifecycle == AnnouncedProposal && proposedHere == 0
      modifies this, view, detector, Instance()
      ensures Valid() && State() == old(State()) && fastPaxos == old(fastPaxos)
      ensures detector.State() == old(detector.State()) && detector.emitted == old(detector.emitted)
      ensures lifecycle == old(lifecycle) && heard == old(heard)
      ensures fastPaxos == null ==> sent == [] && proposedHere == 0
      ensures fastPaxos != null ==>
                && (fastPaxos.State(), sent) == Propose(old(fastPaxos.State()), vote)
                && proposedHere == 1 && pendingFallback && Voted(sent, fastPaxos.configurationId, vote, myAddr)
    {
      if fastPaxos == null { return []; }
      var outs := fastPaxos.ProposeValue(vote);
      ProposalDispatch(State(), old(fastPaxos.State()), vote, pendingFallback);
      sent := Dispatch(outs);
      proposedHere := 1;
    }

    /** The `BatchedAlertMessage` branch of `handle_request`: what is announced is voted for. */
    method OnBatchedAlerts(batch: seq<AlertMessage>)
      returns (outs: seq<Outgoing>, vote: Proposal, ghost found: Findings)
      requires Valid()
      modifies this, detector, view, Instance()
      ensures Valid() && view.Abstract() == old(view.Abstract()) && fastPaxos == old(fastPaxos)
      ensures old(lifecycle) != Running ==>
                && vote == [] && lifecycle == old(lifecycle) && proposedHere == old(proposedHere)
                && State() == old(State()) && detector.State() == old(detector.State()) && heard == old(heard)
      ensures old(lifecycle) == Running ==>
                && found.Explains(old(detector.State())) && heard == old(heard) + found.valid
                && TaughtBy(batch, found.valid, old(joinerUuid), old(joinerMetadata), view.allNodes, Current())
                && found.around == old(Around(view, found.after.preProposal))
                && IsVote(view.key, vote, found.cut) && detector.emitted == old(detector.emitted) + found.cut
                && lifecycle == (if vote == [] then Running else AnnouncedProposal)
      ensures forall n :: n in vote ==> Warranted(heard, view.allNodes, n)
      ensures outs == if vote == [] || fastPaxos == null then [] else Propose(old(fastPaxos.State()), vote).1
      ensures fastPaxos != null ==>
                fastPaxos.State()
                == if vote == [] then old(fastPaxos.State()) else Propose(old(fastPaxos.State()), vote).0
      ensures fastPaxos != null && vote != [] ==>
                && old(proposedHere) == 0 && proposedHere == 1 && pendingFallback
                && Voted(outs, fastPaxos.configurationId, vote, myAddr)
    {
      outs, vote, found := [], [], Findings([], detector.State(), Surroundings(map[], {}), {});
      if lifecycle == ShuttingDown { return; }
      vote, found := HandleBatchedAlerts(batch);
      assert vote != [] ==> vote[0] in vote;
      outs := Announce(vote);
    }

    /** What there is to announce is proposed. */
    method Announce(vote: Proposal) returns (outs: seq<Outgoing>)
      requires Valid() && (vote != [] ==> lifecycle == AnnouncedProposal && proposedHere == 0)
      modifies this, view, detector, Instance()
      ensures Valid() && State() == old(State()) && fastPaxos == old(fastPaxos) && heard == old(heard)
      ensures detector.State() == old(detector.State()) && detector.emitted == old(detector.emitted)
      ensures lifecycle == old(lifecycle) && (vote == [] ==> proposedHere == old(proposedHere))
      ensures outs == if vote == [] || fastPaxos == null then [] else Propose(old(fastPaxos.State()), vote).1
      ensures fastPaxos != null ==>
                fastPaxos.State()
                == if vote == [] then old(fastPaxos.State()) else Propose(old(fastPaxos.State()), vote).0
      ensures fastPaxos != null && vote != [] ==>
                proposedHere == 1 && pendingFallback && Voted(outs, fastPaxos.configurationId, vote, myAddr)
    {
      outs := [];
      if vote != [] {
        outs := ProposeVote(vote);
      }
    }

    /** `dispatch`: decisions are applied, everything else is handed to the network or the clock. A
        decision leaves a new instance in its initial state; otherwise the instance stays. */
    method Dispatch(outs: seq<Outgoing>) returns (sent: seq<Outgoing>)
      requires Valid() && Known(outs)
      modifies this, view, detector
      ensures Valid() && State() == DecideEach(old(State()), outs) && sent == NotDecisions(outs)
      ensures Stands(outs, old(fastPaxos), old(lifecycle), old(proposedHere))
      ensures pendingFallback == ArmedAfter(outs, old(pendingFallback))
      ensures !Decides(outs) ==>
                && detector.State() == old(detector.State()) && detector.emitted == old(detector.emitted)
                && heard == old(heard)
    {
      sent := [];
      ghost var start := Standing(fastPaxos, lifecycle, proposedHere, pendingFallback, detector.State(),
                                  detector.emitted, heard);
      for i := 0 to |outs|
        invariant Valid() && Dispatched(outs[..i], start)
        invariant DecideEach(State(), outs[i..]) == DecideEach(old(State()), outs)
        invariant sent + NotDecisions(outs[i..]) == NotDecisions(outs)
      {
        DispatchStep(State(), outs, i, sent);
        var one := DispatchOne(outs[i], outs[..i], start);
        sent := sent + one;
      }
      assert outs[..|outs|] == outs;
    }

    /** What the effects `done` leave of `start`. */
    ghost predicate Dispatched(done: seq<Outgoing>, start: Standing)
      reads this, view, detector, Instance()
    {
      && Stands(done, start.fastPaxos, start.lifecycle, start.proposedHere)
      && pendingFallback == ArmedAfter(done, start.armed)
      && (!Decides(done) ==>
            detector.State() == start.detector && detector.emitted == start.emitted && heard == start.heard)
    }

    /** After the effects `done`: a new instance if there was a decision among them, else the old one. */
    ghost predicate Stands(done: seq<Outgoing>, fp: FastPaxos?, l: Lifecycle, n: nat)
      reads this, view, Instance()
    {
      if Decides(done) then Started() && lifecycle == Running && proposedHere == 0 else Untouched(fp, l, n)
    }

    ghost predicate Untouched(fp: FastPaxos?, l: Lifecycle, n: nat)
      reads this
    {
      fastPaxos == fp && lifecycle == l && proposedHere == n
    }

    /** One effect, after those in `done`. */
    method DispatchOne(o: Outgoing, ghost done: seq<Outgoing>, ghost start: Standing) returns (sent: seq<Outgoing>)
      requires Valid() && (o.Decision? ==> forall e :: e in o.value ==> e in view.universe)
      requires Dispatched(done, start)
      modifies this, view, detector
      ensures Valid() && Dispatched(done + [o], start) && sent == (if o.Decision? then [] else [o])
      ensures State() == if o.Decision? then VC.Decide(old(State()), o.value) else old(State())
    {
      DecidesNext(done, o);
      ArmedNext(done, o, start.armed);
      sent := [];
      if o.Decision? {
        Decided(o.value);
      } else {
        if o.ScheduleClassicFallback? {
          pendingFallback := true;
        }
        sent := [o];
      }
    }

    /** What `dispatch` does on a decision, and `ApplyProposal` on command: the instance that the
        view change installed is replaced once more. */
    method Decided(proposal: Proposal)
      requires Valid() && forall e :: e in proposal ==> e in view.universe
      modifies this, view, detector
      ensures Valid() && State() == VC.Decide(old(State()), proposal)
      ensures Started() && lifecycle == Running && proposedHere == 0 && !pendingFallback
    {
      var event, kicked, told, reply := DecideViewChange(proposal);
      Renew();
    }

    /** A fresh instance for an actor that keeps its view. */
    method Renew()
      requires Valid()
      modifies this`fastPaxos, this`pendingFallback, this`proposedHere
      modifies view`configurationId, view`configurationDirty
      ensures Valid() && State() == old(State()) && Started() && proposedHere == 0 && !pendingFallback
    {
      ReinstateFastPaxos();
    }

    /** What a transition of the instance to `(after, outs)` leaves an actor with that was in `before`. */
    ghost predicate Took(before: VC.Service, after: FastState, outs: seq<Outgoing>, sent: seq<Outgoing>)
      reads this, view, Instance()
    {
      && sent == NotDecisions(outs) && State() == DecideEach(before, outs)
      && (!Decides(outs) ==> fastPaxos != null && fastPaxos.State() == after)
    }

    /** `handle_consensus_request`, unless we are shutting down. */
    method OnConsensusMessage(request: Request) returns (sent: seq<Outgoing>)
      requires Valid() && (fastPaxos != null ==> Known(HandleRequest(fastPaxos.State(), request).1))
      modifies this, view, detector, Instance()
      ensures Valid()
      ensures if old(lifecycle) == ShuttingDown || old(fastPaxos) == null
              then sent == [] && State() == old(State()) && Untouched(old(fastPaxos), old(lifecycle), old(proposedHere))
              else var (after, outs) := old(HandleRequest(fastPaxos.State(), request));
                && Took(old(State()), after, outs, sent)
                && Stands(outs, old(fastPaxos), old(lifecycle), old(proposedHere))
                && pendingFallback == ArmedAfter(outs, old(pendingFallback))
    {
      sent := [];
      if lifecycle == ShuttingDown || fastPaxos == null { return; }
      var outs := fastPaxos.HandleConsensusMessage(request);
      sent := Dispatch(outs);
    }

    /** The fallback timer's `StartClassicRound`. */
    method OnStartClassicRound() returns (sent: seq<Outgoing>)
      requires Valid() && (fastPaxos != null ==> Known(StartClassicRound(fastPaxos.State(), nodeIndex(myAddr)).1))
      modifies this, view, detector, Instance()
      ensures Valid()
      ensures if old(fastPaxos) == null
              then sent == [] && State() == old(State()) && Untouched(old(fastPaxos), old(lifecycle), old(proposedHere))
              else var (after, outs) := old(StartClassicRound(fastPaxos.State(), nodeIndex(myAddr)));
                && Took(old(State()), after, outs, sent)
                && Stands(outs, old(fastPaxos), old(lifecycle), old(proposedHere))
                && pendingFallback == ArmedAfter(outs, old(pendingFallback))
    {
      sent := [];
      if fastPaxos == null { return; }
      var outs := fastPaxos.StartClassic();
      sent := Dispatch(outs);
    }

    /** `Shutdown`. */
    method OnShutdown()
      requires Valid()
      modifies this`lifecycle
      ensures Valid() && lifecycle == ShuttingDown && State() == old(State())
    {
      lifecycle := ShuttingDown;
    }

    ghost predicate Known(outs: seq<Outgoing>) {
      forall v, e :: Outgoing.Decision(v) in outs && e in v ==> e in view.universe
    }
  }

  /** The decisions among the effects, applied in order. */
  function DecideEach(s: VC.Service, outs: seq<Outgoing>): VC.Service
    decreases |outs|
  {
    if outs == [] then s
    else DecideEach(if outs[0].Decision? then VC.Decide(s, outs[0].value) else s, outs[1..])
  }

  /** Whether a fallback timer is armed after one effect: a new instance starts without one ... */
  function ArmedBy(o: Outgoing, armed: bool): bool {
    match o
    case ScheduleClassicFallback => true
    case Decision(_) => false
    case _ => armed
  }

  /** ... and after several. */
  function ArmedAfter(outs: seq<Outgoing>, armed: bool): bool {
    if outs == [] then armed else ArmedBy(outs[|outs| - 1], ArmedAfter(outs[..|outs| - 1], armed))
  }

  /** `sent` is the broadcast of one vote of `me`'s for `vote`, and one request for a fallback timer. */
  predicate Voted(sent: seq<Outgoing>, configurationId: int, vote: Proposal, me: Endpoint) {
    multiset(sent)
    == multiset{Broadcast(FastVote(FastRoundPhase2bMessage(configurationId, vote, Some(me)))), ScheduleClassicFallback}
  }

  /** Dispatching what a proposal asks for decides nothing, drops nothing, and arms the timer. */
  lemma ProposalDispatch(s: VC.Service, fp: FastState, vote: Proposal, armed: bool)
    ensures var outs := Propose(fp, vote).1;
            && !Decides(outs) && NotDecisions(outs) == outs && DecideEach(s, outs) == s && ArmedAfter(outs, armed)
            && (forall o :: o in outs ==> !o.Decision?) && Voted(outs, fp.configurationId, vote, fp.myAddr)
  {
    var outs := Propose(fp, vote).1;
    ProposeEffects(fp, vote);
    assert outs == [outs[0], ScheduleClassicFallback] && outs[1..] == [ScheduleClassicFallback];
    assert outs[1..][1..] == [] && NotDecisions([]) == [];
    assert NotDecisions(outs[1..]) == [ScheduleClassicFallback];
    assert DecideEach(s, outs[1..][1..]) == s;
    assert DecideEach(s, outs[1..]) == s;
  }

  predicate Decides(outs: seq<Outgoing>) { exists k :: 0 <= k < |outs| && outs[k].Decision? }

  lemma DecidesNext(done: seq<Outgoing>, o: Outgoing)
    ensures Decides(done + [o]) <==> Decides(done) || o.Decision?
  {
    if Decides(done) {
      var k :| 0 <= k < |done| && done[k].Decision?;
      assert (done + [o])[k].Decision?;
    }
    assert (done + [o])[|done|] == o;
  }

  lemma ArmedNext(done: seq<Outgoing>, o: Outgoing, armed: bool)
    ensures ArmedAfter(done + [o], armed) == ArmedBy(o, ArmedAfter(done, armed))
  {
    assert (done + [o])[..|done|] == done;
  }

  lemma DispatchStep(s: VC.Service, outs: seq<Outgoing>, i: nat, sent: seq<Outgoing>)
    requires i < |outs|
    ensures outs[i] in outs && outs[..i] + [outs[i]] == outs[..i + 1]
    ensures DecideEach(s, outs[i..])
            == DecideEach(if outs[i].Decision? then VC.Decide(s, outs[i].value) else s, outs[i + 1..])
    ensures sent + NotDecisions(outs[i..])
            == (sent + if outs[i].Decision? then [] else [outs[i]]) + NotDecisions(outs[i + 1..])
  {
    assert outs[i..][1..] == outs[i + 1..];
  }

  function NotDecisions(outs: seq<Outgoing>): seq<Outgoing> {
    if outs == [] then []
    else (if outs[0].Decision? then [] else [outs[0]]) + NotDecisions(outs[1..])
  }

  lemma DecideStep(s: VC.Service, proposal: Proposal, i: nat, delta: seq<VC.StatusChange>)
    requires i < |proposal|
    ensures VC.Decide(s, proposal[i..]) == VC.Decide(VC.DecideNode(s, proposal[i]), proposal[i + 1..])
    ensures delta + VC.Delta(s, proposal[i..])
            == (delta + VC.NodeChange(s, proposal[i])) + VC.Delta(VC.DecideNode(s, proposal[i]), proposal[i + 1..])
  {
    assert proposal[i..][1..] == proposal[i + 1..];
  }
}
