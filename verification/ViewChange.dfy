/** View changes (service/view_change.rs, metadata.rs): what applying a decided proposal does to
    the view, the metadata and the knowledge about joiners, and the delta it reports. */
module ViewChange {
  import opened Types
  import opened Listings
  import opened Hashing
  import opened Membership

  /** `pb::Metadata`: tags by name. An absent entry reads as the empty one. */
  type Metadata = map<string, seq<byte>>

  datatype StatusChange = StatusChange(endpoint: Endpoint, up: bool, metadata: Metadata)

  datatype Service = Service(
    view: Membership,
    metadata: map<Endpoint, Metadata>,
    joinerUuid: map<Endpoint, NodeId>,
    joinerMetadata: map<Endpoint, Metadata>)

  /** `MetadataManager::get`. */
  function Lookup(m: map<Endpoint, Metadata>, e: Endpoint): Metadata {
    if e in m then m[e] else map[]
  }

  /** `MetadataManager::add` for one entry. */
  function PutIfAbsent(m: map<Endpoint, Metadata>, e: Endpoint, meta: Metadata): map<Endpoint, Metadata> {
    if e in m then m else m[e := meta]
  }

  /** A member leaves. */
  function Leave(s: Service, n: Endpoint): Service {
    s.(view := s.view.(members := s.view.members - {n}), metadata := s.metadata - {n})
  }

  function JoinerTags(s: Service, n: Endpoint): Metadata {
    if n in s.joinerMetadata then s.joinerMetadata[n] else map[]
  }

  /** A joiner whose identifier was just taken from `joinerUuid` enters, unless it is rejected. */
  function Join(s: Service, n: Endpoint, id: NodeId): Service {
    var tags := JoinerTags(s, n);
    var taken := s.(joinerUuid := s.joinerUuid - {n}, joinerMetadata := s.joinerMetadata - {n});
    match Added(s.view, n, id)
    case None => taken
    case Some(v) =>
      taken.(view := v, metadata := if tags == map[] then s.metadata else PutIfAbsent(s.metadata, n, tags))
  }

  /** One endpoint of a decided proposal. */
  function DecideNode(s: Service, n: Endpoint): Service {
    if n in s.view.members then Leave(s, n)
    else if n !in s.joinerUuid then s
    else Join(s, n, s.joinerUuid[n])
  }

  function NodeChange(s: Service, n: Endpoint): seq<StatusChange> {
    if n in s.view.members then [StatusChange(n, false, Lookup(s.metadata, n))]
    else if n !in s.joinerUuid || Added(s.view, n, s.joinerUuid[n]).None? then []
    else [StatusChange(n, true, JoinerTags(s, n))]
  }

  /** `decide_view_change`: the state after every endpoint of the proposal ... */
  function Decide(s: Service, proposal: Proposal): Service
    decreases |proposal|
  {
    if proposal == [] then s else Decide(DecideNode(s, proposal[0]), proposal[1..])
  }

  /** ... and the delta of the event it publishes. */
  function Delta(s: Service, proposal: Proposal): seq<StatusChange>
    decreases |proposal|
  {
    if proposal == [] then [] else NodeChange(s, proposal[0]) + Delta(DecideNode(s, proposal[0]), proposal[1..])
  }

  function Elements(proposal: Proposal): set<Endpoint> { set e | e in proposal }

  function Toggled(members: set<Endpoint>, nodes: set<Endpoint>): set<Endpoint> {
    (members - nodes) + (nodes - members)
  }

  // ---------------------------------------------------------------- toggling

  /** This endpoint changes sides when it is decided on. */
  predicate Ready(s: Service, n: Endpoint) {
    n !in s.view.members ==> n in s.joinerUuid && s.joinerUuid[n] !in s.view.identifiers
  }

  /** Every joiner of the proposal is known by an identifier never seen before and used once. */
  predicate JoinersReady(s: Service, proposal: Proposal) {
    && (forall n :: n in proposal ==> Ready(s, n))
    && (forall m, n :: m in proposal && n in proposal && m != n && m !in s.view.members && n !in s.view.members
          ==> s.joinerUuid[m] != s.joinerUuid[n])
  }

  lemma NodeToggles(s: Service, n: Endpoint)
    ensures DecideNode(s, n).view.members == Toggled(s.view.members, {n}) <==> Ready(s, n)
    ensures n in DecideNode(s, n).view.members <==> n !in s.view.members && Ready(s, n)
    ensures forall m :: m != n ==> (m in DecideNode(s, n).view.members <==> m in s.view.members)
    ensures forall m :: m != n ==> (m in DecideNode(s, n).joinerUuid <==> m in s.joinerUuid)
    ensures forall m :: m != n && m in s.joinerUuid ==> DecideNode(s, n).joinerUuid[m] == s.joinerUuid[m]
    ensures DecideNode(s, n).view.identifiers
            == s.view.identifiers + if n !in s.view.members && Ready(s, n) then {s.joinerUuid[n]} else {}
  {
    var t := DecideNode(s, n);
    if n in s.view.members {
      assert t.view.members == Toggled(s.view.members, {n});
    } else if Ready(s, n) {
      assert t.view.members == Toggled(s.view.members, {n});
    } else {
      assert n in Toggled(s.view.members, {n});
    }
  }

  /** Endpoints outside the proposal stay on their side. */
  lemma {:induction false} OthersStay(s: Service, proposal: Proposal, m: Endpoint)
    requires m !in proposal
    ensures m in Decide(s, proposal).view.members <==> m in s.view.members
    decreases |proposal|
  {
    if proposal != [] {
      NodeToggles(s, proposal[0]);
      OthersStay(DecideNode(s, proposal[0]), proposal[1..], m);
    }
  }

  predicate Toggles(s: Service, proposal: Proposal) {
    Decide(s, proposal).view.members == Toggled(s.view.members, Elements(proposal))
  }

  /** A duplicate-free proposal toggles exactly its endpoints, iff its joiners are all ready. */
  lemma {:induction false} TogglesIffReady(s: Service, proposal: Proposal)
    requires Distinct(proposal)
    ensures Toggles(s, proposal) <==> JoinersReady(s, proposal)
    decreases |proposal|
  {
    if proposal == [] {
      assert Toggled(s.view.members, Elements(proposal)) == s.view.members;
    } else {
      var n, rest := proposal[0], proposal[1..];
      assert proposal == [n] + rest && n !in rest;
      NodeToggles(s, n);
      TogglesIffReady(DecideNode(s, n), rest);
      TogglesHead(s, proposal);
      ReadyHead(s, proposal);
    }
  }

  /** Toggling a proposal is toggling its head and then its tail. */
  lemma TogglesHead(s: Service, proposal: Proposal)
    requires proposal != [] && proposal[0] !in proposal[1..]
    ensures Toggles(s, proposal) <==> Ready(s, proposal[0]) && Toggles(DecideNode(s, proposal[0]), proposal[1..])
  {
    var n, rest, t := proposal[0], proposal[1..], DecideNode(s, proposal[0]);
    assert proposal == [n] + rest;
    NodeToggles(s, n);
    OthersStay(t, rest, n);
    var goal, rest' := Toggled(s.view.members, Elements(proposal)), Toggled(t.view.members, Elements(rest));
    forall m ensures m != n ==> (m in goal <==> m in rest') {}
    assert n in goal <==> n !in s.view.members;
    assert n in rest' <==> n in t.view.members;
  }

  lemma ReadyHead(s: Service, proposal: Proposal)
    requires proposal != [] && proposal[0] !in proposal[1..]
    ensures JoinersReady(s, proposal)
            <==> Ready(s, proposal[0]) && JoinersReady(DecideNode(s, proposal[0]), proposal[1..])
  {
    var n, rest, t := proposal[0], proposal[1..], DecideNode(s, proposal[0]);
    assert proposal == [n] + rest;
    NodeToggles(s, n);
    forall m | m in rest ensures m != n && m in proposal {}
    if Ready(s, n) && JoinersReady(t, rest) {
      forall m | m in proposal ensures Ready(s, m) { assert m != n ==> Ready(t, m); }
      forall a, b | a in proposal && b in proposal && a != b && a !in s.view.members && b !in s.view.members
        ensures s.joinerUuid[a] != s.joinerUuid[b]
      {
        assert a != n ==> Ready(t, a);
        assert b != n ==> Ready(t, b);
      }
    }
    if JoinersReady(s, proposal) {
      forall m | m in rest ensures Ready(t, m) { assert Ready(s, m) && Ready(s, n); }
    }
  }

  // ---------------------------------------------------------------- replicas

  /** Two replicas know the same about the joiners among `nodes`. */
  predicate SameKnowledge(a: map<Endpoint, NodeId>, b: map<Endpoint, NodeId>, nodes: Proposal) {
    forall n :: n in nodes ==> (n in a <==> n in b) && (n in a ==> a[n] == b[n])
  }

  lemma SameNode(a: Service, b: Service, n: Endpoint, rest: Proposal)
    requires a.view == b.view && SameKnowledge(a.joinerUuid, b.joinerUuid, [n] + rest)
    ensures DecideNode(a, n).view == DecideNode(b, n).view
    ensures SameKnowledge(DecideNode(a, n).joinerUuid, DecideNode(b, n).joinerUuid, rest)
  {
    assert n in [n] + rest && forall m :: m in rest ==> m in [n] + rest;
  }

  /** Replicas with equal views and equal knowledge of the joiners reach equal views. */
  lemma {:induction false} SameDecision(a: Service, b: Service, proposal: Proposal)
    requires a.view == b.view && SameKnowledge(a.joinerUuid, b.joinerUuid, proposal)
    ensures Decide(a, proposal).view == Decide(b, proposal).view
    decreases |proposal|
  {
    if proposal != [] {
      var n, rest := proposal[0], proposal[1..];
      assert proposal == [n] + rest;
      SameNode(a, b, n, rest);
      SameDecision(DecideNode(a, n), DecideNode(b, n), rest);
    }
  }

  /** One configuration as a replica lives it: what it came to know, then what was decided. */
  datatype Round = Round(uuids: map<Endpoint, NodeId>, tags: map<Endpoint, Metadata>, proposal: Proposal)

  function Informed(s: Service, r: Round): Service {
    s.(joinerUuid := r.uuids, joinerMetadata := r.tags)
  }

  function Replay(s: Service, rounds: seq<Round>): Service
    decreases |rounds|
  {
    if rounds == [] then s
    else Decide(Informed(Replay(s, rounds[..|rounds| - 1]), rounds[|rounds| - 1]), rounds[|rounds| - 1].proposal)
  }

  /** After any number of rounds with the same decisions and the same identifiers for their
      joiners, two replicas have the same view, and so the same rings and configuration id. */
  lemma {:induction false} ReplicasAgree(a: Service, b: Service, ra: seq<Round>, rb: seq<Round>)
    requires a.view == b.view && |ra| == |rb|
    requires forall i :: 0 <= i < |ra| ==>
               ra[i].proposal == rb[i].proposal && SameKnowledge(ra[i].uuids, rb[i].uuids, ra[i].proposal)
    ensures Replay(a, ra).view == Replay(b, rb).view
    decreases |ra|
  {
    if ra != [] {
      var n := |ra| - 1;
      ReplicasAgree(a, b, ra[..n], rb[..n]);
      SameDecision(Informed(Replay(a, ra[..n]), ra[n]), Informed(Replay(b, rb[..n]), rb[n]), ra[n].proposal);
    }
  }

  // ---------------------------------------------------------------- who gets in, exactly

  /** `n` is not a member and known by an identifier never seen before. */
  predicate Usable(s: Service, n: Endpoint) {
    n !in s.view.members && n in s.joinerUuid && s.joinerUuid[n] !in s.view.identifiers
  }

  /** The identifiers the joiners of `proposal` bring. */
  function Brought(s: Service, proposal: Proposal): set<NodeId> {
    set n | n in proposal && Usable(s, n) :: s.joinerUuid[n]
  }

  /** The joiners that bring one no earlier joiner brought. */
  function Admitted(s: Service, proposal: Proposal): set<Endpoint> {
    set k | 0 <= k < |proposal| && Admits(s, proposal, k) :: proposal[k]
  }

  predicate Admits(s: Service, proposal: Proposal, k: nat)
    requires k < |proposal|
  {
    Usable(s, proposal[k]) && s.joinerUuid[proposal[k]] !in Brought(s, proposal[..k])
  }

  lemma {:induction false} DecideLast(s: Service, front: Proposal, n: Endpoint)
    ensures Decide(s, front + [n]) == DecideNode(Decide(s, front), n)
    decreases |front|
  {
    if front == [] {
      assert [n][1..] == [];
      assert front + [n] == [n];
    } else {
      assert (front + [n])[1..] == front[1..] + [n];
      DecideLast(DecideNode(s, front[0]), front[1..], n);
    }
  }

  lemma BroughtLast(s: Service, front: Proposal, n: Endpoint)
    ensures Brought(s, front + [n]) == Brought(s, front) + if Usable(s, n) then {s.joinerUuid[n]} else {}
  {
    assert forall m :: m in front + [n] <==> m in front || m == n;
  }

  lemma AdmittedLast(s: Service, front: Proposal, n: Endpoint)
    ensures Admitted(s, front + [n])
            == Admitted(s, front)
               + if Usable(s, n) && s.joinerUuid[n] !in Brought(s, front) then {n} else {}
  {
    var p := front + [n];
    assert p[|front|] == n && p[..|front|] == front;
    forall k | 0 <= k < |front| ensures p[k] == front[k] && (Admits(s, p, k) <==> Admits(s, front, k)) {
      assert p[..k] == front[..k];
    }
    forall e | e in Admitted(s, front) ensures e in Admitted(s, p) {
      var k :| 0 <= k < |front| && Admits(s, front, k) && front[k] == e;
      assert Admits(s, p, k) && p[k] == e;
    }
    if Admits(s, p, |front|) {
      assert n in Admitted(s, p);
    }
  }

  /** What is known of an endpoint outside the proposal stays known. */
  lemma {:induction false} OthersKnown(s: Service, proposal: Proposal, m: Endpoint)
    requires m !in proposal
    ensures m in Decide(s, proposal).joinerUuid <==> m in s.joinerUuid
    ensures m in s.joinerUuid ==> Decide(s, proposal).joinerUuid[m] == s.joinerUuid[m]
    decreases |proposal|
  {
    if proposal != [] {
      NodeToggles(s, proposal[0]);
      OthersKnown(DecideNode(s, proposal[0]), proposal[1..], m);
    }
  }

  /** The view after a duplicate-free proposal, in one step: its members leave, those admitted enter,
      and what they brought is spent. */
  lemma {:induction false} DecideAdmits(s: Service, proposal: Proposal)
    requires Distinct(proposal)
    ensures var v := Decide(s, proposal).view;
            && v.members == (s.view.members - Elements(proposal)) + Admitted(s, proposal)
            && v.identifiers == s.view.identifiers + Brought(s, proposal)
    decreases |proposal|
  {
    if proposal != [] {
      var front, n := proposal[..|proposal| - 1], proposal[|proposal| - 1];
      assert proposal == front + [n];
      DecideAdmits(s, front);
      DecideLast(s, front, n);
      LastAdmits(s, Decide(s, front), front, n);
    }
  }

  lemma LastAdmits(s: Service, t: Service, front: Proposal, n: Endpoint)
    requires n !in front && t == Decide(s, front)
    requires t.view.members == (s.view.members - Elements(front)) + Admitted(s, front)
    requires t.view.identifiers == s.view.identifiers + Brought(s, front)
    ensures var v := DecideNode(t, n).view;
            && v.members == (s.view.members - Elements(front + [n])) + Admitted(s, front + [n])
            && v.identifiers == s.view.identifiers + Brought(s, front + [n])
  {
    UsableAfter(s, t, front, n);
    BroughtLast(s, front, n);
    AdmittedLast(s, front, n);
    ElementsLast(front, n);
    NotYetAdmitted(s, front, n);
    LastMembers(t, n, s.view.members, Elements(front), Admitted(s, front));
    NodeAdmits(t, n);
    assert Usable(t, n) ==> t.joinerUuid[n] == s.joinerUuid[n];
    SpentOnce(s.view.identifiers, Brought(s, front), Usable(s, n), if Usable(s, n) then {s.joinerUuid[n]} else {},
              if Usable(t, n) then {t.joinerUuid[n]} else {});
  }

  lemma ElementsLast(front: Proposal, n: Endpoint)
    ensures Elements(front + [n]) == Elements(front) + {n}
  {
  }

  lemma NotYetAdmitted(s: Service, front: Proposal, n: Endpoint)
    requires n !in front
    ensures n !in Elements(front) && n !in Admitted(s, front)
  {
  }

  lemma SpentOnce(ids: set<NodeId>, brought: set<NodeId>, usable: bool, one: set<NodeId>, more: set<NodeId>)
    requires more == one || (more == {} && one <= brought)
    ensures (ids + brought) + more == ids + (brought + one)
  {
  }

  lemma UsableAfter(s: Service, t: Service, front: Proposal, n: Endpoint)
    requires n !in front && t == Decide(s, front)
    requires t.view.identifiers == s.view.identifiers + Brought(s, front)
    ensures n in t.view.members <==> n in s.view.members
    ensures Usable(t, n) <==> Usable(s, n) && s.joinerUuid[n] !in Brought(s, front)
    ensures Usable(t, n) ==> t.joinerUuid[n] == s.joinerUuid[n]
  {
    OthersStay(s, front, n);
    OthersKnown(s, front, n);
  }

  lemma LastMembers(t: Service, n: Endpoint, members: set<Endpoint>, nodes: set<Endpoint>, admitted: set<Endpoint>)
    requires t.view.members == (members - nodes) + admitted && n !in nodes && n !in admitted
    ensures DecideNode(t, n).view.members
            == (members - (nodes + {n})) + (admitted + if Usable(t, n) then {n} else {})
  {
    NodeAdmits(t, n);
  }

  lemma NodeAdmits(t: Service, n: Endpoint)
    ensures DecideNode(t, n).view.members
            == if n in t.view.members then t.view.members - {n}
               else t.view.members + if Usable(t, n) then {n} else {}
    ensures DecideNode(t, n).view.identifiers
            == t.view.identifiers + if Usable(t, n) then {t.joinerUuid[n]} else {}
  {
  }

  /** The two replicas admit the same joiners of `proposal`, with the same identifiers all in all. */
  predicate SameAdmissions(a: Service, b: Service, proposal: Proposal) {
    Admitted(a, proposal) == Admitted(b, proposal) && Brought(a, proposal) == Brought(b, proposal)
  }

  lemma AdmittedAreNew(s: Service, proposal: Proposal)
    ensures Admitted(s, proposal) !! s.view.members && Brought(s, proposal) !! s.view.identifiers
  {
  }

  /** Equal views stay equal under a decision exactly when the replicas know enough of its joiners to
      admit the same ones with the same identifiers. */
  lemma StayEqualIff(a: Service, b: Service, proposal: Proposal)
    requires a.view == b.view && Distinct(proposal)
    ensures Decide(a, proposal).view == Decide(b, proposal).view <==> SameAdmissions(a, b, proposal)
  {
    DecideAdmits(a, proposal);
    DecideAdmits(b, proposal);
    AdmittedAreNew(a, proposal);
    AdmittedAreNew(b, proposal);
    var v, w := Decide(a, proposal).view, Decide(b, proposal).view;
    if v == w {
      assert Admitted(a, proposal) == v.members - (a.view.members - Elements(proposal));
      assert Admitted(b, proposal) == w.members - (b.view.members - Elements(proposal));
      assert Brought(a, proposal) == v.identifiers - a.view.identifiers;
      assert Brought(b, proposal) == w.identifiers - b.view.identifiers;
    }
  }

  /** A replica that missed the alert about a joiner skips it, and is left behind. */
  lemma MissedAlertDiverges(a: Service, b: Service, n: Endpoint)
    requires a.view == b.view && Usable(a, n) && n !in b.joinerUuid
    ensures n in Decide(a, [n]).view.members && n !in Decide(b, [n]).view.members
  {
    assert [n][1..] == [];
    assert Decide(a, [n]) == DecideNode(a, n) && Decide(b, [n]) == DecideNode(b, n);
  }

  /** Over any number of rounds: two replicas have equal views after every one of them if and only if
      they started with equal views and admitted alike in each. */
  lemma {:induction false} InStepIff(a: Service, b: Service, ra: seq<Round>, rb: seq<Round>)
    requires |ra| == |rb|
    requires forall k :: 0 <= k < |ra| ==> ra[k].proposal == rb[k].proposal && Distinct(ra[k].proposal)
    ensures InStep(a, ra, b, rb) <==> a.view == b.view && AdmitAlike(a, ra, b, rb)
    decreases |ra|
  {
    if ra == [] {
      assert ra[..0] == [] && rb[..0] == [];
      assert InStep(a, ra, b, rb) ==> Replay(a, ra[..0]).view == Replay(b, rb[..0]).view;
    } else {
      var n := |ra| - 1;
      InStepIff(a, b, ra[..n], rb[..n]);
      InStepFront(a, ra, b, rb);
      AdmitAlikeFront(a, ra, b, rb);
      StepView(a, ra, n);
      StepView(b, rb, n);
      if Replay(a, ra[..n]).view == Replay(b, rb[..n]).view {
        StayEqualIff(Informed(Replay(a, ra[..n]), ra[n]), Informed(Replay(b, rb[..n]), rb[n]), ra[n].proposal);
      }
      assert InStep(a, ra[..n], b, rb[..n]) ==> Replay(a, ra[..n][..n]).view == Replay(b, rb[..n][..n]).view;
      assert ra[..n][..n] == ra[..n] && rb[..n][..n] == rb[..n];
    }
  }

  ghost predicate InStep(a: Service, ra: seq<Round>, b: Service, rb: seq<Round>)
    requires |ra| == |rb|
  {
    forall n {:trigger ra[..n]} :: 0 <= n <= |ra| ==> Replay(a, ra[..n]).view == Replay(b, rb[..n]).view
  }

  ghost predicate AdmitAlike(a: Service, ra: seq<Round>, b: Service, rb: seq<Round>)
    requires |ra| == |rb|
  {
    forall k {:trigger ra[k]} :: 0 <= k < |ra| ==> AlikeAt(a, ra, b, rb, k)
  }

  ghost predicate AlikeAt(a: Service, ra: seq<Round>, b: Service, rb: seq<Round>, k: nat)
    requires k < |ra| == |rb|
  {
    SameAdmissions(Informed(Replay(a, ra[..k]), ra[k]), Informed(Replay(b, rb[..k]), rb[k]), ra[k].proposal)
  }

  lemma StepView(s: Service, rounds: seq<Round>, n: nat)
    requires n < |rounds|
    ensures Replay(s, rounds[..n + 1]).view
            == Decide(Informed(Replay(s, rounds[..n]), rounds[n]), rounds[n].proposal).view
  {
    assert rounds[..n + 1][..n] == rounds[..n];
  }

  lemma InStepFront(a: Service, ra: seq<Round>, b: Service, rb: seq<Round>)
    requires |ra| == |rb| > 0
    ensures var n := |ra| - 1;
            InStep(a, ra, b, rb)
            <==> InStep(a, ra[..n], b, rb[..n]) && Replay(a, ra[..n + 1]).view == Replay(b, rb[..n + 1]).view
  {
    var n := |ra| - 1;
    assert forall m {:trigger ra[..n][..m]} :: 0 <= m <= n ==> ra[..n][..m] == ra[..m] && rb[..n][..m] == rb[..m];
    assert forall m {:trigger ra[..m]} :: 0 <= m <= n ==> ra[..n][..m] == ra[..m] && rb[..n][..m] == rb[..m];
  }

  lemma AdmitAlikeFront(a: Service, ra: seq<Round>, b: Service, rb: seq<Round>)
    requires |ra| == |rb| > 0
    ensures var n := |ra| - 1;
            AdmitAlike(a, ra, b, rb) <==> AdmitAlike(a, ra[..n], b, rb[..n]) && AlikeAt(a, ra, b, rb, n)
  {
    var n := |ra| - 1;
    forall k | 0 <= k < n ensures AlikeAt(a, ra[..n], b, rb[..n], k) <==> AlikeAt(a, ra, b, rb, k) {
      assert ra[..n][..k] == ra[..k] && rb[..n][..k] == rb[..k];
    }
    assert forall k :: 0 <= k < n ==> ra[..n][k] == ra[k];
  }

  // ---------------------------------------------------------------- identifiers and metadata

  /** Identifiers are never forgotten ... */
  lemma {:induction false} IdentifiersGrow(s: Service, proposal: Proposal)
    ensures s.view.identifiers <= Decide(s, proposal).view.identifiers
    decreases |proposal|
  {
    if proposal != [] {
      IdentifiersGrow(DecideNode(s, proposal[0]), proposal[1..]);
    }
  }

  lemma {:induction false} RunIdentifiersGrow(s: Service, rounds: seq<Round>)
    ensures s.view.identifiers <= Replay(s, rounds).view.identifiers
    decreases |rounds|
  {
    if rounds != [] {
      var before, last := rounds[..|rounds| - 1], rounds[|rounds| - 1];
      RunIdentifiersGrow(s, before);
      IdentifiersGrow(Informed(Replay(s, before), last), last.proposal);
    }
  }

  /** A decision does not admit an endpoint known by a spent identifier, or by none. */
  lemma {:induction false} DecideRefuses(s: Service, proposal: Proposal, n: Endpoint)
    requires n !in s.view.members && (n in s.joinerUuid ==> s.joinerUuid[n] in s.view.identifiers)
    ensures n !in Decide(s, proposal).view.members
    decreases |proposal|
  {
    if proposal != [] {
      NodeToggles(s, proposal[0]);
      DecideRefuses(DecideNode(s, proposal[0]), proposal[1..], n);
    }
  }

  /** ... so an identifier seen once is spent in every later configuration: however often members
      left and joined since, no decision admits an endpoint that comes with it. */
  lemma SpentForever(s: Service, rounds: seq<Round>, next: Round, n: Endpoint)
    requires n !in Replay(s, rounds).view.members
    requires n in next.uuids ==> next.uuids[n] in s.view.identifiers
    ensures n !in Replay(s, rounds + [next]).view.members
  {
    assert (rounds + [next])[..|rounds|] == rounds;
    RunIdentifiersGrow(s, rounds);
    DecideRefuses(Informed(Replay(s, rounds), next), next.proposal, n);
  }

  /** Only members have metadata. */
  predicate MetadataOk(s: Service) { s.metadata.Keys <= s.view.members }

  lemma {:induction false} MetadataStaysOk(s: Service, proposal: Proposal)
    requires MetadataOk(s)
    ensures MetadataOk(Decide(s, proposal))
    decreases |proposal|
  {
    if proposal != [] {
      MetadataStaysOk(DecideNode(s, proposal[0]), proposal[1..]);
    }
  }
}
