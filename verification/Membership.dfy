/** What a membership view means (view.rs): the members, the identifiers ever seen, and the
    K-fold neighbour relation that the members alone determine. */
module Membership {
  import opened Types
  import opened KeyOrder
  import opened Hashing
  import opened RingOrder
  import opened DetectorState

  datatype Membership = Membership(members: set<Endpoint>, identifiers: set<NodeId>)

  datatype JoinDisposition = HostnameAlreadyInRing | UuidAlreadyInRing | SafeToJoin

  function SafetyOfJoin(v: Membership, e: Endpoint, id: NodeId): JoinDisposition {
    if e in v.members then HostnameAlreadyInRing
    else if id in v.identifiers then UuidAlreadyInRing
    else SafeToJoin
  }

  /** `ring_add`: `None` when rejected. Identifiers are never forgotten. */
  function Added(v: Membership, e: Endpoint, id: NodeId): Option<Membership> {
    if id in v.identifiers || e in v.members then None
    else Some(Membership(v.members + {e}, v.identifiers + {id}))
  }

  /** `ring_delete`: `None` when rejected. */
  function Deleted(v: Membership, e: Endpoint): Option<Membership> {
    if e !in v.members then None else Some(v.(members := v.members - {e}))
  }

  datatype Change = AddChange(e: Endpoint, id: NodeId) | DeleteChange(e: Endpoint)

  /** One accepted or rejected operation. */
  function Apply(v: Membership, c: Change): Membership {
    var r := match c case AddChange(e, id) => Added(v, e, id) case DeleteChange(e) => Deleted(v, e);
    if r.None? then v else r.value
  }

  function ApplyAll(v: Membership, changes: seq<Change>): Membership
    decreases |changes|
  {
    if changes == [] then v else ApplyAll(Apply(v, changes[0]), changes[1..])
  }

  /** An identifier once accepted is spent: after any further changes, removals included, it is
      refused for every endpoint. */
  lemma {:induction false} IdentifierSpent(v: Membership, changes: seq<Change>, e: Endpoint, id: NodeId)
    requires id in v.identifiers
    ensures Added(ApplyAll(v, changes), e, id).None? && SafetyOfJoin(ApplyAll(v, changes), e, id) != SafeToJoin
    decreases |changes|
  {
    if changes != [] {
      IdentifierSpent(Apply(v, changes[0]), changes[1..], e, id);
    }
  }

  // ---------------------------------------------------------------- identifiers and their order

  /** `NodeIdKey` order, lexicographic on (high, low), as an integer order. */
  function IdRank(id: NodeId): int { id.high * WORD + id.low }

  lemma IdRankIsLexicographic(a: NodeId, b: NodeId)
    ensures IdRank(a) < IdRank(b) <==> a.high < b.high || (a.high == b.high && a.low < b.low)
    ensures IdRank(a) == IdRank(b) ==> a == b
  {
  }

  function ByRank(ids: set<NodeId>): map<int, NodeId> {
    assert forall a, b :: a in ids && b in ids && IdRank(a) == IdRank(b) ==> a == b by {
      forall a, b | IdRank(a) == IdRank(b) ensures a == b { IdRankIsLexicographic(a, b); }
    }
    map id | id in ids :: IdRank(id) := id
  }

  /** `current_identifiers`. */
  function IdentifierList(ids: set<NodeId>): seq<NodeId> { Values(ByRank(ids)) }

  lemma IdentifiersListed(ids: set<NodeId>)
    ensures forall id :: id in IdentifierList(ids) <==> id in ids
    ensures forall i, j :: 0 <= i < j < |IdentifierList(ids)| ==>
              IdRank(IdentifierList(ids)[i]) < IdRank(IdentifierList(ids)[j])
  {
    var m, q := ByRank(ids), IdentifierList(ids);
    ValuesList(m);
    forall id | id in ids ensures id in m.Values { assert m[IdRank(id)] == id; }
    forall i, j | 0 <= i < j < |q| ensures IdRank(q[i]) < IdRank(q[j]) { Before(m.Keys, i, j); }
  }

  // ---------------------------------------------------------------- configuration id, bootstrap

  function ConfigurationOf(xx: Hash64, key: Keying, v: Membership): i64
    requires CollisionFree(key, 0, v.members)
  {
    ConfigurationId(xx, IdentifierList(v.identifiers), Ordered(RingOf(key, 0, v.members)))
  }

  /** `idOf` is the configuration id as a function of the view. */
  ghost predicate IdsAre(idOf: Membership -> int, xx: Hash64, key: Keying) {
    forall v: Membership {:trigger ConfigurationOf(xx, key, v)} ::
      CollisionFree(key, 0, v.members) ==> idOf(v) == ConfigurationOf(xx, key, v)
  }

  ghost function IdsOf(xx: Hash64, key: Keying): Membership -> int {
    (v: Membership) => if CollisionFree(key, 0, v.members) then ConfigurationOf(xx, key, v) else 0
  }

  lemma IdsOfAreIds(xx: Hash64, key: Keying)
    ensures IdsAre(IdsOf(xx, key), xx, key)
  {
  }

  /** What `bootstrap` makes of an identifier list and an endpoint list. */
  function Booted(ids: seq<NodeId>, endpoints: seq<Endpoint>): Membership {
    Membership(set e | e in endpoints, set id | id in ids)
  }

  /** The lists sent to a joiner, identifiers in order and ring 0, rebuild the sender's view. */
  lemma BootstrapRoundTrip(key: Keying, v: Membership)
    requires CollisionFree(key, 0, v.members)
    ensures Booted(IdentifierList(v.identifiers), Ordered(RingOf(key, 0, v.members))) == v
  {
    var ids, endpoints := IdentifierList(v.identifiers), Ordered(RingOf(key, 0, v.members));
    IdentifiersListed(v.identifiers);
    OrderedLists(key, 0, v.members);
    assert (set e | e in endpoints) == v.members;
    assert (set id | id in ids) == v.identifiers;
  }

  // ---------------------------------------------------------------- neighbours on all rings

  predicate AllCollisionFree(key: Keying, k: nat, s: set<Endpoint>) {
    forall i | 0 <= i < k :: CollisionFree(key, i, s)
  }

  /** The successors of `e` on rings 0 to k - 1. */
  function Successors(key: Keying, k: nat, s: set<Endpoint>, e: Endpoint): (r: seq<Endpoint>)
    requires AllCollisionFree(key, k, s) && s != {}
    ensures |r| == k
  {
    seq(k, i requires 0 <= i < k => Succ(key, i, s, e))
  }

  function Predecessors(key: Keying, k: nat, s: set<Endpoint>, e: Endpoint): (r: seq<Endpoint>)
    requires AllCollisionFree(key, k, s) && s != {}
    ensures |r| == k
  {
    seq(k, i requires 0 <= i < k => Pred(key, i, s, e))
  }

  /** `compute_observers_of`, `get_subjects_of` and `get_expected_observers_of`. */
  function Observers(key: Keying, k: nat, s: set<Endpoint>, e: Endpoint): seq<Endpoint>
    requires AllCollisionFree(key, k, s)
  {
    if |s| <= 1 then [] else Successors(key, k, s, e)
  }

  function Subjects(key: Keying, k: nat, s: set<Endpoint>, e: Endpoint): seq<Endpoint>
    requires AllCollisionFree(key, k, s)
  {
    if |s| <= 1 then [] else Predecessors(key, k, s, e)
  }

  function ExpectedObservers(key: Keying, k: nat, s: set<Endpoint>, e: Endpoint): seq<Endpoint>
    requires AllCollisionFree(key, k, s)
  {
    if s == {} then [] else Predecessors(key, k, s, e)
  }

  /** The rings on which `o` watches `subject`. */
  function WatchedOn(key: Keying, k: nat, s: set<Endpoint>, o: Endpoint, subject: Endpoint): set<nat>
    requires AllCollisionFree(key, k, s)
  {
    var subjects := Subjects(key, k, s, o);
    set i | 0 <= i < |subjects| && subjects[i] == subject
  }

  /** The rings partition: ring `i` of a subject belongs to exactly one member, its i-th observer. */
  lemma RingsPartition(key: Keying, k: nat, s: set<Endpoint>, subject: Endpoint, i: nat, o: Endpoint)
    requires AllCollisionFree(key, k, s) && |s| >= 2 && subject in s && i < k && o in s
    ensures |Observers(key, k, s, subject)| == k && Observers(key, k, s, subject)[i] in s
    ensures i in WatchedOn(key, k, s, o, subject) <==> o == Observers(key, k, s, subject)[i]
  {
    NeighboursInvert(key, i, s, subject);
    NeighboursInvert(key, i, s, o);
  }

  /** No slot watches its own owner. */
  lemma NoSelfWatch(key: Keying, k: nat, s: set<Endpoint>, e: Endpoint)
    requires AllCollisionFree(key, k, s) && e in s
    ensures WatchedOn(key, k, s, e, e) == {}
  {
    if |s| >= 2 {
      forall i | i in WatchedOn(key, k, s, e, e) ensures false {
        NeighboursInvert(key, i, s, e);
      }
    }
  }

  // ---------------------------------------------------------------- every observer reports

  /** The reports are those that members make about `subject` on the rings they watch it on. */
  predicate FromObservers(key: Keying, k: nat, s: set<Endpoint>, subject: Endpoint, reports: seq<Report>)
    requires AllCollisionFree(key, k, s)
  {
    forall r :: r in reports ==>
      r.dst == subject && r.src in s && r.ring in WatchedOn(key, k, s, r.src, subject)
  }

  /** Each member made its reports at least once. */
  predicate AllReported(key: Keying, k: nat, s: set<Endpoint>, subject: Endpoint, reports: seq<Report>)
    requires AllCollisionFree(key, k, s)
  {
    forall o, i :: o in s && i in WatchedOn(key, k, s, o, subject) ==>
      i in RingsIn(reports, subject)
  }

  /** Once all observers reported a member, in any order and with any repeats, a fresh detector
      holds exactly K reports of it, it is not in flux, and it has been emitted, alone. */
  lemma FullTally(key: Keying, k: nat, s: set<Endpoint>, subject: Endpoint, d0: Detector, reports: seq<Report>)
    requires AllCollisionFree(key, k, s) && |s| >= 2 && subject in s
    requires d0.k == k && Watermarks(k, d0.h, d0.l) && d0 == Fresh(k, d0.h, d0.l)
    requires FromObservers(key, k, s, subject, reports) && AllReported(key, k, s, subject, reports)
    ensures Tally(AfterAll(d0, reports), subject) == k && !InFlux(AfterAll(d0, reports), subject)
    ensures Emitted(d0, reports) == {subject}
  {
    forall i ensures i in RingsIn(reports, subject) <==> 0 <= i < k {
      if 0 <= i < k {
        RingsPartition(key, k, s, subject, i, subject);
        RingsPartition(key, k, s, subject, i, Observers(key, k, s, subject)[i]);
      }
      if i in RingsIn(reports, subject) {
        var r :| r in reports && r.dst == subject && r.ring == i;
      }
    }
    ExactlyBelow(RingsIn(reports, subject), k);
    forall r | r in reports ensures r.ring < 256 { assert r.ring in RingsIn(reports, subject); }
    OneHostOnly(d0, subject, reports);
  }

  lemma ExactlyBelow(rings: set<nat>, k: nat)
    requires forall i :: i in rings <==> 0 <= i < k
    ensures |rings| == k
  {
    forall i ensures i in rings <==> i in FirstNats(k) { if i >= 0 { FirstNatsRange(k, i); } }
    FirstNatsRange(k, 0);
    assert rings == FirstNats(k);
  }

  lemma OneHostOnly(d0: Detector, subject: Endpoint, reports: seq<Report>)
    requires Watermarks(d0.k, d0.h, d0.l) && d0 == Fresh(d0.k, d0.h, d0.l)
    requires forall r :: r in reports ==> r.dst == subject
    requires ByteRings(reports) && |RingsIn(reports, subject)| == d0.k
    ensures Tally(AfterAll(d0, reports), subject) == d0.k && !InFlux(AfterAll(d0, reports), subject)
    ensures Emitted(d0, reports) == {subject}
  {
    RunFrame(d0, reports);
    FromFresh(d0, reports, subject);
    forall n ensures Tally(AfterAll(d0, reports), n) == if n == subject then d0.k else 0 {
      FromFresh(d0, reports, n);
      assert n != subject ==> RingsIn(reports, n) == {};
    }
    NothingElse(AfterAll(d0, reports), Emitted(d0, reports), subject);
  }

  lemma NothingElse(d: Detector, emitted: set<Endpoint>, subject: Endpoint)
    requires Inv(d, emitted) && forall n {:trigger Tally(d, n)} :: Tally(d, n) == if n == subject then d.k else 0
    ensures !InFlux(d, subject) && emitted == {subject}
  {
    forall n ensures n !in d.preProposal {
      assert InFlux(d, n) <==> n in d.preProposal;
      assert Tally(d, n) == if n == subject then d.k else 0;
    }
    assert d.preProposal == {};
    forall n ensures n in emitted <==> n == subject {
      assert Stable(d, n) <==> n in d.proposal + emitted;
      assert Tally(d, n) == if n == subject then d.k else 0;
    }
  }
}
