/** Batches of alerts (service/alert_handler.rs): which alerts pass, what they teach about joiners,
    and what the detector makes of them. */
module Alerts {
  import opened Types
  import opened Listings
  import opened Hashing
  import opened KeyOrder
  import opened RingOrder
  import opened Membership
  import opened MembershipView
  import opened DetectorState
  import opened DetectorSweep
  import opened CutDetector
  import VC = ViewChange

  /** `pb::AlertMessage` with the fields the detector does not read. */
  datatype AlertMessage = AlertMessage(
    edge: Alert, configurationId: int, nodeId: Option<NodeId>, metadata: Option<VC.Metadata>)

  /** `is_valid_alert`. */
  predicate IsValid(a: AlertMessage, members: set<Endpoint>, configurationId: int) {
    && a.configurationId == configurationId && a.edge.dst.Some?
    && (a.edge.dst.value in members <==> a.edge.down)
  }

  /** The alerts that pass, in order. */
  function ValidAlerts(batch: seq<AlertMessage>, members: set<Endpoint>, configurationId: int): seq<AlertMessage> {
    if batch == [] then []
    else
      (if IsValid(batch[0], members, configurationId) then [batch[0]] else [])
      + ValidAlerts(batch[1..], members, configurationId)
  }

  /** `extract_joiner` for identifiers; for tags likewise. */
  function LearnId(m: map<Endpoint, NodeId>, a: AlertMessage): map<Endpoint, NodeId> {
    if !a.edge.down && a.edge.dst.Some? && a.nodeId.Some? then m[a.edge.dst.value := a.nodeId.value] else m
  }

  function LearnTags(m: map<Endpoint, VC.Metadata>, a: AlertMessage): map<Endpoint, VC.Metadata> {
    if !a.edge.down && a.edge.dst.Some? && a.metadata.Some? then m[a.edge.dst.value := a.metadata.value] else m
  }

  function LearnIds(m: map<Endpoint, NodeId>, alerts: seq<AlertMessage>): map<Endpoint, NodeId>
    decreases |alerts|
  {
    if alerts == [] then m else LearnIds(LearnId(m, alerts[0]), alerts[1..])
  }

  function LearnAllTags(m: map<Endpoint, VC.Metadata>, alerts: seq<AlertMessage>): map<Endpoint, VC.Metadata>
    decreases |alerts|
  {
    if alerts == [] then m else LearnAllTags(LearnTags(m, alerts[0]), alerts[1..])
  }

  /** The detector after every alert, and what it emitted on the way. */
  function Aggregated(d: Detector, alerts: seq<AlertMessage>): Detector
    decreases |alerts|
  {
    if alerts == [] then d else Aggregated(AfterAll(d, ReportsOf(alerts[0].edge)), alerts[1..])
  }

  function AggregatedCut(d: Detector, alerts: seq<AlertMessage>): set<Endpoint>
    decreases |alerts|
  {
    if alerts == [] then {}
    else
      var reports := ReportsOf(alerts[0].edge);
      Emitted(d, reports) + AggregatedCut(AfterAll(d, reports), alerts[1..])
  }

  // ---------------------------------------------------------------- which alerts pass

  /** The alert reports, in this configuration, a member down or a stranger up. */
  predicate Acceptable(a: AlertMessage, members: set<Endpoint>, configurationId: int) {
    match a.edge.dst
    case None => false
    case Some(n) =>
      && a.configurationId == configurationId
      && ((a.edge.down && n in members) || (!a.edge.down && n !in members))
  }

  predicate AcceptableAt(batch: seq<AlertMessage>, i: int, members: set<Endpoint>, configurationId: int) {
    0 <= i < |batch| && Acceptable(batch[i], members, configurationId)
  }

  predicate PickedAt(batch: seq<AlertMessage>, at: seq<nat>, valid: seq<AlertMessage>) {
    |at| == |valid| && forall j :: 0 <= j < |at| ==> at[j] < |batch| && valid[j] == batch[at[j]]
  }

  /** `valid` are the alerts of the batch at the positions `at`: all acceptable ones, in order. */
  ghost predicate PassedAt(batch: seq<AlertMessage>, valid: seq<AlertMessage>, at: seq<nat>,
                           members: set<Endpoint>, configurationId: int) {
    && StrictlyAscending(at) && PickedAt(batch, at, valid)
    && forall i {:trigger AcceptableAt(batch, i, members, configurationId)} ::
         AcceptableAt(batch, i, members, configurationId) <==> i in at
  }

  ghost predicate Passed(batch: seq<AlertMessage>, valid: seq<AlertMessage>, members: set<Endpoint>,
                         configurationId: int) {
    exists at :: PassedAt(batch, valid, at, members, configurationId)
  }

  /** Exactly the acceptable alerts pass, in the order of the batch. */
  lemma {:induction false} ValidAlertsPass(batch: seq<AlertMessage>, members: set<Endpoint>, configurationId: int)
    returns (at: seq<nat>)
    ensures PassedAt(batch, ValidAlerts(batch, members, configurationId), at, members, configurationId)
  {
    at := [];
    if batch != [] {
      var rest := ValidAlertsPass(batch[1..], members, configurationId);
      at := PassedFirst(batch, ValidAlerts(batch[1..], members, configurationId), rest, members, configurationId);
    }
  }

  lemma PassedFirst(batch: seq<AlertMessage>, valid: seq<AlertMessage>, rest: seq<nat>, members: set<Endpoint>,
                    configurationId: int)
    returns (at: seq<nat>)
    requires batch != [] && PassedAt(batch[1..], valid, rest, members, configurationId)
    ensures PassedAt(batch, (if IsValid(batch[0], members, configurationId) then [batch[0]] else []) + valid, at,
                     members, configurationId)
  {
    if Acceptable(batch[0], members, configurationId) {
      at := [0] + Moved(rest);
      PassedTaken(batch, valid, rest, members, configurationId);
    } else {
      at := Moved(rest);
      PassedSkipped(batch, valid, rest, members, configurationId);
      assert [] + valid == valid;
    }
  }

  lemma PassedTaken(batch: seq<AlertMessage>, valid: seq<AlertMessage>, rest: seq<nat>, members: set<Endpoint>,
                    configurationId: int)
    requires batch != [] && PassedAt(batch[1..], valid, rest, members, configurationId)
    requires Acceptable(batch[0], members, configurationId)
    ensures PassedAt(batch, [batch[0]] + valid, [0] + Moved(rest), members, configurationId)
  {
    AscendingMoved(rest);
    PickedMoved(batch, rest, valid);
    var at := [0] + Moved(rest);
    forall i ensures AcceptableAt(batch, i, members, configurationId) <==> i in at {
      AcceptableMoved(batch, rest, i, members, configurationId);
    }
  }

  lemma PassedSkipped(batch: seq<AlertMessage>, valid: seq<AlertMessage>, rest: seq<nat>, members: set<Endpoint>,
                      configurationId: int)
    requires batch != [] && PassedAt(batch[1..], valid, rest, members, configurationId)
    requires !Acceptable(batch[0], members, configurationId)
    ensures PassedAt(batch, valid, Moved(rest), members, configurationId)
  {
    AscendingMoved(rest);
    PickedMoved(batch, rest, valid);
    forall i ensures AcceptableAt(batch, i, members, configurationId) <==> i in Moved(rest) {
      AcceptableMoved(batch, rest, i, members, configurationId);
    }
  }

  lemma PickedMoved(batch: seq<AlertMessage>, rest: seq<nat>, valid: seq<AlertMessage>)
    requires batch != [] && PickedAt(batch[1..], rest, valid)
    ensures PickedAt(batch, Moved(rest), valid) && PickedAt(batch, [0] + Moved(rest), [batch[0]] + valid)
  {
    forall j | 0 <= j < |rest| ensures Moved(rest)[j] < |batch| && valid[j] == batch[Moved(rest)[j]] {
      assert batch[1..][rest[j]] == batch[rest[j] + 1];
    }
  }

  lemma AscendingMoved(at: seq<nat>)
    requires StrictlyAscending(at)
    ensures StrictlyAscending(Moved(at)) && StrictlyAscending([0] + Moved(at))
  {
    forall j | 0 <= j < |at| ensures Moved(at)[j] == at[j] + 1 {
    }
  }

  lemma AcceptableMoved(batch: seq<AlertMessage>, rest: seq<nat>, i: int, members: set<Endpoint>,
                        configurationId: int)
    requires batch != []
    requires AcceptableAt(batch[1..], i - 1, members, configurationId) <==> i - 1 in rest
    ensures i != 0 ==> (AcceptableAt(batch, i, members, configurationId) <==> i in Moved(rest))
    ensures 0 !in Moved(rest)
  {
    if i > 0 {
      MovedIn(rest, i);
    }
  }

  function Moved(at: seq<nat>): seq<nat> { seq(|at|, j requires 0 <= j < |at| => at[j] + 1) }

  lemma MovedIn(at: seq<nat>, i: nat)
    requires i > 0
    ensures i in Moved(at) <==> i - 1 in at
  {
    if i - 1 in at {
      var j :| 0 <= j < |at| && at[j] == i - 1;
      assert Moved(at)[j] == i;
    }
    if i in Moved(at) {
      var j :| 0 <= j < |at| && Moved(at)[j] == i;
      assert at[j] == i - 1;
    }
  }

  /** What passed is acceptable, and all that is acceptable passed. */
  lemma PassedElements(batch: seq<AlertMessage>, valid: seq<AlertMessage>, members: set<Endpoint>,
                       configurationId: int)
    requires Passed(batch, valid, members, configurationId)
    ensures forall a :: a in valid <==> a in batch && Acceptable(a, members, configurationId)
  {
    var at :| PassedAt(batch, valid, at, members, configurationId);
    forall a | a in valid ensures a in batch && Acceptable(a, members, configurationId) {
      var j :| 0 <= j < |valid| && valid[j] == a;
      assert at[j] in at && AcceptableAt(batch, at[j], members, configurationId);
    }
    forall a | a in batch && Acceptable(a, members, configurationId) ensures a in valid {
      var i :| 0 <= i < |batch| && batch[i] == a;
      assert AcceptableAt(batch, i, members, configurationId);
      var j :| 0 <= j < |at| && at[j] == i;
      assert valid[j] == a;
    }
  }

  // ---------------------------------------------------------------- what is learnt of joiners

  /** What each alert says about the joiner `n`: its identifier, or its tags. */
  function IdsSaid(alerts: seq<AlertMessage>, n: Endpoint): seq<Option<NodeId>> {
    seq(|alerts|, j requires 0 <= j < |alerts| =>
      if !alerts[j].edge.down && alerts[j].edge.dst == Some(n) then alerts[j].nodeId else None)
  }

  function TagsSaid(alerts: seq<AlertMessage>, n: Endpoint): seq<Option<VC.Metadata>> {
    seq(|alerts|, j requires 0 <= j < |alerts| =>
      if !alerts[j].edge.down && alerts[j].edge.dst == Some(n) then alerts[j].metadata else None)
  }

  /** `after` is the last thing said, and `before` if nothing was. */
  ghost predicate LastSaid<V>(before: Option<V>, said: seq<Option<V>>, after: Option<V>) {
    || (after == before && forall i :: 0 <= i < |said| ==> said[i].None?)
    || exists j :: 0 <= j < |said| && said[j].Some? && after == said[j] && forall i :: j < i < |said| ==> said[i].None?
  }

  lemma LastSaidThen<V>(before: Option<V>, first: Option<V>, rest: seq<Option<V>>, after: Option<V>)
    requires LastSaid(if first.Some? then first else before, rest, after)
    ensures LastSaid(before, [first] + rest, after)
  {
    var said := [first] + rest;
    assert forall i :: 0 < i < |said| ==> said[i] == rest[i - 1];
    if forall i :: 0 <= i < |rest| ==> rest[i].None? {
      assert first.Some? ==> said[0].Some? && after == said[0];
    } else {
      var j :| 0 <= j < |rest| && rest[j].Some? && after == rest[j] && forall i :: j < i < |rest| ==> rest[i].None?;
      assert said[j + 1].Some? && after == said[j + 1];
    }
  }

  /** For each endpoint the last alert that brings an identifier counts, and without one what was
      known before; tags likewise. */
  ghost predicate IdsLearnt(m: map<Endpoint, NodeId>, alerts: seq<AlertMessage>, m': map<Endpoint, NodeId>) {
    forall n {:trigger Held(m', n)} :: LastSaid(Held(m, n), IdsSaid(alerts, n), Held(m', n))
  }

  ghost predicate TagsLearnt(m: map<Endpoint, VC.Metadata>, alerts: seq<AlertMessage>,
                             m': map<Endpoint, VC.Metadata>) {
    forall n {:trigger Held(m', n)} :: LastSaid(Held(m, n), TagsSaid(alerts, n), Held(m', n))
  }

  lemma {:induction false} IdsOfAlerts(m: map<Endpoint, NodeId>, alerts: seq<AlertMessage>)
    ensures IdsLearnt(m, alerts, LearnIds(m, alerts))
    decreases |alerts|
  {
    if alerts != [] {
      var first, rest := LearnId(m, alerts[0]), alerts[1..];
      IdsOfAlerts(first, rest);
      forall n ensures LastSaid(Held(m, n), IdsSaid(alerts, n), Held(LearnIds(m, alerts), n)) {
        var said := IdsSaid(alerts, n);
        assert said == [said[0]] + IdsSaid(rest, n);
        LastSaidThen(Held(m, n), said[0], IdsSaid(rest, n), Held(LearnIds(first, rest), n));
      }
    }
  }

  lemma {:induction false} TagsOfAlerts(m: map<Endpoint, VC.Metadata>, alerts: seq<AlertMessage>)
    ensures TagsLearnt(m, alerts, LearnAllTags(m, alerts))
    decreases |alerts|
  {
    if alerts != [] {
      var first, rest := LearnTags(m, alerts[0]), alerts[1..];
      TagsOfAlerts(first, rest);
      forall n ensures LastSaid(Held(m, n), TagsSaid(alerts, n), Held(LearnAllTags(m, alerts), n)) {
        var said := TagsSaid(alerts, n);
        assert said == [said[0]] + TagsSaid(rest, n);
        LastSaidThen(Held(m, n), said[0], TagsSaid(rest, n), Held(LearnAllTags(first, rest), n));
      }
    }
  }

  /** The same is known of `members` in both. */
  ghost predicate Undisturbed<V>(m: map<Endpoint, V>, m': map<Endpoint, V>, members: set<Endpoint>) {
    forall n {:trigger Held(m', n)} :: n in members ==> Held(m', n) == Held(m, n)
  }

  /** A batch changes what is known of strangers only. */
  lemma LearntOfStrangers(batch: seq<AlertMessage>, valid: seq<AlertMessage>, members: set<Endpoint>,
                          configurationId: int, ids: map<Endpoint, NodeId>, ids': map<Endpoint, NodeId>,
                          tags: map<Endpoint, VC.Metadata>, tags': map<Endpoint, VC.Metadata>)
    requires Passed(batch, valid, members, configurationId)
    requires IdsLearnt(ids, valid, ids') && TagsLearnt(tags, valid, tags')
    ensures Undisturbed(ids, ids', members) && Undisturbed(tags, tags', members)
  {
    PassedElements(batch, valid, members, configurationId);
    forall n | n in members ensures Held(ids', n) == Held(ids, n) && Held(tags', n) == Held(tags, n) {
      forall j | 0 <= j < |valid| ensures IdsSaid(valid, n)[j].None? && TagsSaid(valid, n)[j].None? {
        assert valid[j] in valid && Acceptable(valid[j], members, configurationId);
      }
      assert LastSaid(Held(ids, n), IdsSaid(valid, n), Held(ids', n));
      assert LastSaid(Held(tags, n), TagsSaid(valid, n), Held(tags', n));
    }
  }

  /** What a batch teaches. */
  lemma BatchTeaches(batch: seq<AlertMessage>, members: set<Endpoint>, configurationId: int,
                     ids: map<Endpoint, NodeId>, tags: map<Endpoint, VC.Metadata>)
    ensures var valid := ValidAlerts(batch, members, configurationId);
            && Passed(batch, valid, members, configurationId)
            && IdsLearnt(ids, valid, LearnIds(ids, valid)) && TagsLearnt(tags, valid, LearnAllTags(tags, valid))
            && Undisturbed(ids, LearnIds(ids, valid), members) && Undisturbed(tags, LearnAllTags(tags, valid), members)
  {
    var valid := ValidAlerts(batch, members, configurationId);
    var at := ValidAlertsPass(batch, members, configurationId);
    IdsOfAlerts(ids, valid);
    TagsOfAlerts(tags, valid);
    LearntOfStrangers(batch, valid, members, configurationId, ids, LearnIds(ids, valid), tags,
                      LearnAllTags(tags, valid));
  }

  // ---------------------------------------------------------------- what the detector makes of them

  /** The rings on which the alerts report `n`. */
  function RingsTold(alerts: seq<AlertMessage>, n: Endpoint): set<nat> {
    set j: nat, i | j < |alerts| && i in RingsFrom(alerts[j].edge, n) :: i
  }

  lemma RingsToldFirst(alerts: seq<AlertMessage>, n: Endpoint)
    requires alerts != []
    ensures RingsTold(alerts, n) == RingsFrom(alerts[0].edge, n) + RingsTold(alerts[1..], n)
  {
    var rest := alerts[1..];
    forall i | i in RingsTold(alerts, n) ensures i in RingsFrom(alerts[0].edge, n) + RingsTold(rest, n) {
      var j: nat :| j < |alerts| && i in RingsFrom(alerts[j].edge, n);
      if j > 0 { assert rest[j - 1] == alerts[j]; }
    }
    forall i | i in RingsTold(rest, n) ensures i in RingsTold(alerts, n) {
      var j: nat :| j < |rest| && i in RingsFrom(rest[j].edge, n);
      assert rest[j] == alerts[j + 1];
    }
  }

  lemma RingsToldBoth(a: seq<AlertMessage>, b: seq<AlertMessage>, n: Endpoint)
    ensures RingsTold(a + b, n) == RingsTold(a, n) + RingsTold(b, n)
  {
    var all := a + b;
    forall i | i in RingsTold(all, n) ensures i in RingsTold(a, n) + RingsTold(b, n) {
      var j: nat :| j < |all| && i in RingsFrom(all[j].edge, n);
      if j >= |a| { assert all[j] == b[j - |a|]; }
    }
    forall i | i in RingsTold(a, n) ensures i in RingsTold(all, n) {
      var j: nat :| j < |a| && i in RingsFrom(a[j].edge, n);
      assert all[j] == a[j];
    }
    forall i | i in RingsTold(b, n) ensures i in RingsTold(all, n) {
      var j: nat :| j < |b| && i in RingsFrom(b[j].edge, n);
      assert all[|a| + j] == b[j];
    }
  }

  /** Every host is reported on the rings it was reported on before and those the alerts tell. */
  ghost predicate AllRegistered(before: Detector, alerts: seq<AlertMessage>, after: Detector) {
    && after.k == before.k && after.h == before.h && after.l == before.l
    && forall n {:trigger Rings(after, n)} :: Rings(after, n) == Rings(before, n) + RingsTold(alerts, n)
  }

  lemma {:induction false} AlertsRegister(d: Detector, alerts: seq<AlertMessage>)
    ensures AllRegistered(d, alerts, Aggregated(d, alerts))
    decreases |alerts|
  {
    if alerts != [] {
      var d1 := AfterAll(d, ReportsOf(alerts[0].edge));
      AlertRegisters(d, alerts[0].edge);
      AlertsRegister(d1, alerts[1..]);
      forall n ensures Rings(Aggregated(d, alerts), n) == Rings(d, n) + RingsTold(alerts, n) {
        RingsToldFirst(alerts, n);
        assert Rings(d1, n) == Rings(d, n) + RingsFrom(alerts[0].edge, n);
      }
    }
  }

  /** Alerts keep the detector's invariant and emit no host again. */
  lemma {:induction false} AlertsKeep(d: Detector, emitted: set<Endpoint>, alerts: seq<AlertMessage>)
    requires Inv(d, emitted)
    ensures Inv(Aggregated(d, alerts), emitted + AggregatedCut(d, alerts)) && AggregatedCut(d, alerts) !! emitted
    decreases |alerts|
  {
    if alerts == [] {
      assert emitted + {} == emitted;
    } else {
      var reports := ReportsOf(alerts[0].edge);
      ReportsAreOfAlert(alerts[0].edge);
      RunKeeps(d, emitted, reports);
      AlertsKeep(AfterAll(d, reports), emitted + Emitted(d, reports), alerts[1..]);
      JoinEmissions(Aggregated(d, alerts), emitted, Emitted(d, reports),
                    AggregatedCut(AfterAll(d, reports), alerts[1..]));
    }
  }

  // ---------------------------------------------------------------- nothing is proposed unheard of

  /** `heard` are acceptable alerts, and the hosts on which the detector holds reports are exactly
      those they report; it may have charged those with more rings than they tell. */
  ghost predicate Grounded(d: Detector, heard: seq<AlertMessage>, members: set<Endpoint>, configurationId: int) {
    && (forall a :: a in heard ==> Acceptable(a, members, configurationId))
    && (forall n {:trigger Rings(d, n)} :: RingsTold(heard, n) <= Rings(d, n))
    && (forall n {:trigger Rings(d, n)} :: Rings(d, n) != {} ==> RingsTold(heard, n) != {})
  }

  /** Some of the alerts reports `n`, and those about `n` report it down if it is a member, else up. */
  ghost predicate Warranted(heard: seq<AlertMessage>, members: set<Endpoint>, n: Endpoint) {
    && (exists a :: a in heard && a.edge.dst == Some(n) && a.edge.src.Some? && a.edge.rings != [])
    && (forall a :: a in heard && a.edge.dst == Some(n) ==> (a.edge.down <==> n in members))
  }

  lemma ToldWarrants(heard: seq<AlertMessage>, members: set<Endpoint>, configurationId: int, n: Endpoint)
    requires forall a :: a in heard ==> Acceptable(a, members, configurationId)
    requires RingsTold(heard, n) != {}
    ensures Warranted(heard, members, n)
  {
    var i :| i in RingsTold(heard, n);
    var j: nat :| j < |heard| && i in RingsFrom(heard[j].edge, n);
    assert heard[j] in heard;
  }

  lemma FreshGrounded(k: nat, h: nat, l: nat, members: set<Endpoint>, configurationId: int)
    ensures Grounded(Fresh(k, h, l), [], members, configurationId)
  {
    forall n ensures RingsTold([], n) == {} && Rings(Fresh(k, h, l), n) == {} {
    }
  }

  lemma BatchGrounds(d: Detector, heard: seq<AlertMessage>, batch: seq<AlertMessage>, valid: seq<AlertMessage>,
                     members: set<Endpoint>, configurationId: int)
    requires Grounded(d, heard, members, configurationId) && Passed(batch, valid, members, configurationId)
    ensures Grounded(Aggregated(d, valid), heard + valid, members, configurationId)
  {
    PassedElements(batch, valid, members, configurationId);
    AlertsRegister(d, valid);
    forall n
      ensures RingsTold(heard + valid, n) == RingsTold(heard, n) + RingsTold(valid, n)
      ensures Rings(Aggregated(d, valid), n) == Rings(d, n) + RingsTold(valid, n)
    {
      RingsToldBoth(heard, valid, n);
    }
  }

  /** Implicit detection charges only hosts that were reported. */
  lemma SweepGrounds(d: Detector, emitted: set<Endpoint>, heard: seq<AlertMessage>, order: seq<Endpoint>,
                     w: Surroundings, members: set<Endpoint>, configurationId: int)
    requires Inv(d, emitted) && Grounded(d, heard, members, configurationId)
    requires Lists(order, d.preProposal) && Covers(w, d.preProposal)
    ensures Grounded(Invalidated(d, order, w), heard, members, configurationId)
  {
    VisitsCharge(d, order, w);
    forall n ensures n in order ==> RingsTold(heard, n) != {} {
      if n in order {
        assert InFlux(d, n);
        assert Rings(d, n) != {};
      }
    }
    if d.seenLinkDown {
      forall n
        ensures RingsTold(heard, n) <= Rings(VisitAll(d, order, w), n)
        ensures Rings(VisitAll(d, order, w), n) != {} ==> RingsTold(heard, n) != {}
      {
        assert RingsTold(heard, n) <= Rings(d, n);
        assert Rings(d, n) <= Rings(VisitAll(d, order, w), n);
      }
    }
  }

  /** Whatever a batch makes the detector emit, at once or implicitly, was reported in this
      configuration: down if it is a member, else up. */
  lemma CutIsWarranted(d: Detector, emitted: set<Endpoint>, heard: seq<AlertMessage>, valid: seq<AlertMessage>,
                       w: Surroundings, members: set<Endpoint>, configurationId: int, n: Endpoint)
    requires Inv(d, emitted) && Covers(w, Aggregated(d, valid).preProposal)
    requires Grounded(Aggregated(d, valid), heard, members, configurationId)
    requires n in AggregatedCut(d, valid) + ImplicitCut(Aggregated(d, valid), w)
    ensures Warranted(heard, members, n)
  {
    var after, all := Aggregated(d, valid), emitted + AggregatedCut(d, valid);
    AlertsKeep(d, emitted, valid);
    assert InFlux(after, n) <==> n in after.preProposal;
    assert Stable(after, n) <==> n in after.proposal + all;
    assert Rings(after, n) != {};
    ToldWarrants(heard, members, configurationId, n);
  }

  // ---------------------------------------------------------------- all observers report

  /** What `handle_edge_failure` enqueues at `me` about `subject`: on the rings on which `me` watches it. */
  function FailureAlert(key: Keying, k: nat, s: set<Endpoint>, me: Endpoint, subject: Endpoint, id: int): AlertMessage
    requires AllCollisionFree(key, k, s)
  {
    var rings: seq<int> := if me in s then RingNumbers(key, k, s, me, subject) else [];
    AlertMessage(Alert(Some(me), Some(subject), true, rings), id, None, None)
  }

  lemma FailureRings(key: Keying, k: nat, s: set<Endpoint>, o: Endpoint, subject: Endpoint, id: int)
    requires AllCollisionFree(key, k, s) && o in s && k < 256
    ensures RingsFrom(FailureAlert(key, k, s, o, subject, id).edge, subject) == WatchedOn(key, k, s, o, subject)
  {
    RingNumbersListed(key, k, s, o, subject);
    SmallRings(FailureAlert(key, k, s, o, subject, id).edge, RingNumbers(key, k, s, o, subject),
               WatchedOn(key, k, s, o, subject));
  }

  lemma SmallRings(a: Alert, list: seq<nat>, rings: set<nat>)
    requires a.rings == list && (forall i :: i in list <==> i in rings) && forall i :: i in rings ==> i < 256
    ensures ByteRingsOf(a) == rings
  {
    forall i | i in ByteRingsOf(a) ensures i in rings {
      var j :| 0 <= j < |a.rings| && a.rings[j] % 256 == i;
      assert list[j] in list;
    }
    forall i | i in rings ensures i in ByteRingsOf(a) {
      var j :| 0 <= j < |list| && list[j] == i;
      assert a.rings[j] % 256 == i;
    }
  }

  /** The acceptable alerts of the batch are members' failure alerts about `subject`, and every member
      that watches `subject` sent its own. */
  ghost predicate AllObserversTell(key: Keying, k: nat, s: set<Endpoint>, subject: Endpoint, id: int,
                                   batch: seq<AlertMessage>)
    requires AllCollisionFree(key, k, s)
  {
    && (forall a :: a in batch && Acceptable(a, s, id) ==>
          exists o :: o in s && a == FailureAlert(key, k, s, o, subject, id))
    && (forall o :: o in s && WatchedOn(key, k, s, o, subject) != {} ==>
          FailureAlert(key, k, s, o, subject, id) in batch)
  }

  lemma ObserversTellRings(key: Keying, k: nat, s: set<Endpoint>, subject: Endpoint, id: int,
                           batch: seq<AlertMessage>, valid: seq<AlertMessage>)
    requires AllCollisionFree(key, k, s) && |s| >= 2 && subject in s && k < 256
    requires AllObserversTell(key, k, s, subject, id, batch) && Passed(batch, valid, s, id)
    ensures |RingsTold(valid, subject)| == k
    ensures forall n :: n != subject ==> RingsTold(valid, n) == {}
  {
    PassedElements(batch, valid, s, id);
    forall j: nat | j < |valid| ensures exists o :: o in s && valid[j] == FailureAlert(key, k, s, o, subject, id) {
      assert valid[j] in valid;
    }
    forall i ensures i in RingsTold(valid, subject) <==> 0 <= i < k {
      if 0 <= i < k {
        var o := Observers(key, k, s, subject)[i];
        RingsPartition(key, k, s, subject, i, subject);
        RingsPartition(key, k, s, subject, i, o);
        ObserverTells(key, k, s, subject, id, valid, o, i);
      } else if i in RingsTold(valid, subject) {
        var j: nat :| j < |valid| && i in RingsFrom(valid[j].edge, subject);
        var o :| o in s && valid[j] == FailureAlert(key, k, s, o, subject, id);
        FailureRings(key, k, s, o, subject, id);
      }
    }
    ExactlyBelow(RingsTold(valid, subject), k);
  }

  lemma ObserverTells(key: Keying, k: nat, s: set<Endpoint>, subject: Endpoint, id: int, valid: seq<AlertMessage>,
                      o: Endpoint, i: nat)
    requires AllCollisionFree(key, k, s) && k < 256 && o in s && i in WatchedOn(key, k, s, o, subject)
    requires FailureAlert(key, k, s, o, subject, id) in valid
    ensures i in RingsTold(valid, subject)
  {
    FailureRings(key, k, s, o, subject, id);
    var j :| 0 <= j < |valid| && valid[j] == FailureAlert(key, k, s, o, subject, id);
  }

  /** A batch that holds every observer's failure alert about a member, whatever else it holds that does
      not count, makes a fresh detector emit that member and nothing else, with K reports and nothing
      left in flux. */
  lemma ObserversEvict(key: Keying, s: set<Endpoint>, subject: Endpoint, id: int, d0: Detector,
                       batch: seq<AlertMessage>, valid: seq<AlertMessage>)
    requires AllCollisionFree(key, d0.k, s) && |s| >= 2 && subject in s
    requires Watermarks(d0.k, d0.h, d0.l) && d0 == Fresh(d0.k, d0.h, d0.l)
    requires AllObserversTell(key, d0.k, s, subject, id, batch) && Passed(batch, valid, s, id)
    ensures AggregatedCut(d0, valid) == {subject} && Suspects(Aggregated(d0, valid)) == {}
    ensures Tally(Aggregated(d0, valid), subject) == d0.k
  {
    FreshInv(d0.k, d0.h, d0.l);
    AlertsKeep(d0, {}, valid);
    AlertsRegister(d0, valid);
    ObserversTellRings(key, d0.k, s, subject, id, batch, valid);
    assert {} + AggregatedCut(d0, valid) == AggregatedCut(d0, valid);
    OneHostTold(d0, subject, valid, Aggregated(d0, valid));
    NothingElse(Aggregated(d0, valid), AggregatedCut(d0, valid), subject);
    NothingSuspect(Aggregated(d0, valid), subject);
  }

  lemma OneHostTold(d0: Detector, subject: Endpoint, valid: seq<AlertMessage>, d: Detector)
    requires d0 == Fresh(d0.k, d0.h, d0.l) && AllRegistered(d0, valid, d)
    requires |RingsTold(valid, subject)| == d0.k && forall n :: n != subject ==> RingsTold(valid, n) == {}
    ensures forall n {:trigger Tally(d, n)} :: Tally(d, n) == if n == subject then d.k else 0
  {
    forall n ensures Tally(d, n) == if n == subject then d.k else 0 {
      assert Rings(d, n) == Rings(d0, n) + RingsTold(valid, n) && Rings(d0, n) == {};
      assert {} + RingsTold(valid, n) == RingsTold(valid, n);
    }
  }

  lemma NothingSuspect(d: Detector, subject: Endpoint)
    requires Inv(d, {subject}) && forall n {:trigger Tally(d, n)} :: n != subject ==> Tally(d, n) == 0
    requires !InFlux(d, subject)
    ensures Suspects(d) == {}
  {
    forall n ensures n !in Suspects(d) {
      assert InFlux(d, n) <==> n in d.preProposal;
      assert Stable(d, n) <==> n in d.proposal + {subject};
      assert n != subject ==> Tally(d, n) == 0;
    }
  }

  // ---------------------------------------------------------------- steps of the loops

  lemma {:induction false} LearnMore(ids: map<Endpoint, NodeId>, tags: map<Endpoint, VC.Metadata>,
                                     alerts: seq<AlertMessage>, a: AlertMessage)
    ensures LearnIds(ids, alerts + [a]) == LearnId(LearnIds(ids, alerts), a)
    ensures LearnAllTags(tags, alerts + [a]) == LearnTags(LearnAllTags(tags, alerts), a)
    decreases |alerts|
  {
    if alerts == [] {
      assert (alerts + [a])[1..] == [];
    } else {
      LearnMore(LearnId(ids, alerts[0]), LearnTags(tags, alerts[0]), alerts[1..], a);
      assert (alerts + [a])[1..] == alerts[1..] + [a];
    }
  }

  lemma AggregateStep(d: Detector, valid: seq<AlertMessage>, i: nat, cut: set<Endpoint>, start: set<Endpoint>)
    requires i < |valid|
    ensures var reports := ReportsOf(valid[i].edge);
            && Aggregated(d, valid[i..]) == Aggregated(AfterAll(d, reports), valid[i + 1..])
            && cut + AggregatedCut(d, valid[i..])
               == (cut + Emitted(d, reports)) + AggregatedCut(AfterAll(d, reports), valid[i + 1..])
            && (start + cut) + Emitted(d, reports) == start + (cut + Emitted(d, reports))
  {
    assert valid[i..][1..] == valid[i + 1..];
  }
}
