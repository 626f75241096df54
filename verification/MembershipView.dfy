/** The membership view object (view.rs): K rings, the identifiers ever seen, the observer cache
    and the lazily refreshed configuration id. Everything it answers is a function of the members
    and the identifiers alone, except cached observers of a member at a wrap point. */
module MembershipView {
  import opened Types
  import opened KeyOrder
  import opened Hashing
  import opened RingOrder
  import opened Membership
  import opened ObserverCache
  import opened ViewRings

  /** Why an operation is rejected. */
  datatype ViewError = UuidAlreadySeen | EndpointAlreadyInRing | EndpointNotInRing | NodeNotInRing | RingOutOfBounds

  datatype Answer<T> = Answered(value: T) | Rejected(error: ViewError)

  ghost function AnswerFor(key: Keying, k: nat, s: set<Endpoint>, cache: Cache, n: Endpoint): seq<Endpoint>
    requires AllCollisionFree(key, k, s)
  {
    if n !in s then ExpectedObservers(key, k, s, n)
    else if n in cache then cache[n]
    else Observers(key, k, s, n)
  }

  class View {
    const k: nat
    const xx: Hash64
    const key: Keying
    /** Every endpoint that may ever be added; their hashes do not collide on any ring. */
    ghost const universe: set<Endpoint>
    /** The configuration id of any view, hashed as this one's is. */
    ghost const idOf: Membership -> int

    var rings: seq<Ring>
    var identifiers: set<NodeId>
    var allNodes: set<Endpoint>
    var cachedObservers: Cache
    var configurationId: i64
    var configurationDirty: bool

    ghost function Abstract(): Membership
      reads this`allNodes, this`identifiers
    {
      Membership(allNodes, identifiers)
    }

    /** What a lookup of the observers of `n` answers, expected ones if it is not a member. */
    ghost function Answer(n: Endpoint): seq<Endpoint>
      reads this`allNodes, this`cachedObservers
      requires AllCollisionFree(key, k, allNodes)
    {
      AnswerFor(key, k, allNodes, cachedObservers, n)
    }

    ghost predicate RingsOk(rings: seq<Ring>, members: set<Endpoint>) {
      && |rings| == k && AllCollisionFree(key, k, members) && AreRings(key, rings, 0, k, members)
    }

    ghost predicate Valid()
      reads this
    {
      && 0 < k < 256
      && AllCollisionFree(key, k, universe) && allNodes <= universe
      && RingsOk(rings, allNodes)
      && CacheOk(key, k, allNodes, cachedObservers)
      && IdsAre(idOf, xx, key) && (!configurationDirty ==> configurationId == idOf(Abstract()))
    }

    function Raw(): RawView
      reads this
    {
      RawView(rings, identifiers, allNodes, cachedObservers)
    }

    /** `bootstrap` after its check that `k` is positive: `new` with every list inserted. */
    constructor (k: nat, xx: Hash64, ids: seq<NodeId>, endpoints: seq<Endpoint>, ghost universe: set<Endpoint>)
      requires 0 < k < 256
      ensures this.k == k && this.xx == xx && key == AddressKey(xx) && this.universe == universe
      ensures idOf == IdsOf(xx, AddressKey(xx))
      ensures Raw() == RawBooted(key, k, ids, endpoints) && configurationDirty
      ensures AllCollisionFree(key, k, universe) && (forall e :: e in endpoints ==> e in universe) ==>
                Valid() && Abstract() == Booted(ids, endpoints)
    {
      this.k := k;
      this.xx := xx;
      key := AddressKey(xx);
      this.universe := universe;
      idOf := IdsOf(xx, AddressKey(xx));
      rings := [];
      identifiers := {};
      allNodes := {};
      cachedObservers := map[];
      configurationId := -1;
      configurationDirty := true;
      new;
      IdsOfAreIds(xx, key);
      Populate(ids, endpoints);
    }

    /** `bootstrap`: an error when there are no rings. */
    static method Bootstrap(k: nat, xx: Hash64, ids: seq<NodeId>, endpoints: seq<Endpoint>,
                            ghost universe: set<Endpoint>)
      returns (v: View?)
      requires k < 256
      ensures v == null <==> k == 0
      ensures v != null ==>
                && fresh(v) && v.k == k && v.xx == xx && v.key == AddressKey(xx) && v.universe == universe
                && v.idOf == IdsOf(xx, AddressKey(xx))
                && v.Raw() == RawBooted(v.key, k, ids, endpoints)
                && (AllCollisionFree(v.key, k, universe) && (forall e :: e in endpoints ==> e in universe) ==>
                      v.Valid() && v.Abstract() == Booted(ids, endpoints))
    {
      if k == 0 { return null; }
      v := new View(k, xx, ids, endpoints, universe);
    }

    /** The loops of `bootstrap` on an empty view. */
    method Populate(ids: seq<NodeId>, endpoints: seq<Endpoint>)
      requires 0 < k < 256 && IdsAre(idOf, xx, key)
      requires allNodes == {} && identifiers == {} && cachedObservers == map[] && configurationDirty
      modifies this`rings, this`identifiers, this`allNodes
      ensures Raw() == RawBooted(key, k, ids, endpoints)
      ensures AllCollisionFree(key, k, universe) && (forall e :: e in endpoints ==> e in universe) ==>
                Valid() && Abstract() == Booted(ids, endpoints)
    {
      rings := [];
      for i := 0 to k
        invariant |rings| == i && forall j | 0 <= j < i :: rings[j] == Ring(j, map[])
        invariant allNodes == {} && identifiers == {}
      {
        rings := rings + [Ring(i, map[])];
      }
      assert rings == EmptyRings(k);
      InsertIdentifiers(ids);
      InsertEndpoints(endpoints);
      assert allNodes == {} + (set e | e in endpoints) == (set e | e in endpoints);
      if AllCollisionFree(key, k, universe) && forall e :: e in endpoints ==> e in universe {
        StillCollisionFree(key, k, universe, allNodes);
        BootedIsOk(key, k, ids, endpoints);
      }
    }

    method InsertIdentifiers(ids: seq<NodeId>)
      modifies this`identifiers
      ensures identifiers == old(identifiers) + set id | id in ids
    {
      for i := 0 to |ids|
        invariant identifiers == old(identifiers) + set id | id in ids[..i]
      {
        assert ids[..i + 1] == ids[..i] + [ids[i]];
        identifiers := identifiers + {ids[i]};
      }
      assert ids[..|ids|] == ids;
    }

    method InsertEndpoints(endpoints: seq<Endpoint>)
      modifies this`rings, this`allNodes
      ensures allNodes == old(allNodes) + set e | e in endpoints
      ensures rings == EachInAll(key, old(rings), endpoints)
    {
      for i := 0 to |endpoints|
        invariant allNodes == old(allNodes) + set e | e in endpoints[..i]
        invariant EachInAll(key, rings, endpoints[i..]) == EachInAll(key, old(rings), endpoints)
      {
        assert endpoints[..i + 1] == endpoints[..i] + [endpoints[i]];
        assert endpoints[i..][1..] == endpoints[i + 1..];
        allNodes := allNodes + {endpoints[i]};
        InsertEverywhere(endpoints[i]);
      }
      assert endpoints[..|endpoints|] == endpoints;
    }

    method InsertEverywhere(e: Endpoint)
      modifies this`rings
      ensures rings == InAll(key, old(rings), e)
    {
      for i := 0 to |rings|
        invariant |rings| == |old(rings)|
        invariant forall j | 0 <= j < i :: rings[j] == Insert(key, old(rings)[j], e)
        invariant forall j | i <= j < |rings| :: rings[j] == old(rings)[j]
      {
        rings := rings[i := Insert(key, rings[i], e)];
      }
    }

    /** `is_safe_to_join`. */
    method IsSafeToJoin(e: Endpoint, id: NodeId) returns (r: JoinDisposition)
      ensures r == SafetyOfJoin(Abstract(), e, id)
      ensures r == SafeToJoin <==> Added(Abstract(), e, id).Some?
      ensures r == HostnameAlreadyInRing <==> e in allNodes
    {
      if e in allNodes { return HostnameAlreadyInRing; }
      if id in identifiers { return UuidAlreadyInRing; }
      return SafeToJoin;
    }

    /** `ring_add`: one pass over the rings, then the cache, then the identifiers. With any hashing
        the fields change as `RawAdd` says; while hashes do not collide, the view stays valid. */
    method RingAdd(e: Endpoint, id: NodeId) returns (r: Answer<()>)
      requires 0 < k == |rings|
      modifies this`rings, this`allNodes, this`cachedObservers, this`identifiers, this`configurationDirty
      ensures |rings| == k
      ensures if AddAccepted(key, old(Raw()), e, id)
              then r == Answered(()) && Raw() == RawAdd(key, old(Raw()), e, id) && configurationDirty
              else
                && r == Rejected(if id in old(identifiers) then UuidAlreadySeen else EndpointAlreadyInRing)
                && Raw() == old(Raw()) && configurationDirty == old(configurationDirty)
      ensures old(Valid()) && e in universe ==>
                && Valid()
                && match Added(old(Abstract()), e, id)
                   case None => r.Rejected? && Abstract() == old(Abstract())
                   case Some(v) =>
                     && r == Answered(()) && Abstract() == v
                     && Survivors(key, k, v.members, e, old(cachedObservers), cachedObservers)
    {
      ghost var before, ok := Raw(), Valid() && e in universe;
      if id in identifiers { return Rejected(UuidAlreadySeen); }
      if ok {
        StillCollisionFree(key, k, universe, allNodes + {e});
        FoundIsMember(key, k, before, e);
      }
      if Contains(key, rings[0], e) { return Rejected(EndpointAlreadyInRing); }
      var affected := AddToRings(e);
      allNodes := allNodes + {e};
      cachedObservers := cachedObservers - affected;
      identifiers := identifiers + {id};
      configurationDirty := true;
      r := Answered(());
      if ok {
        AddKeepsRings(key, k, before, e, id);
      }
    }

    /** The ring loop of `ring_add`: insert, and note the lower element on each ring. */
    method AddToRings(e: Endpoint) returns (affected: set<Endpoint>)
      modifies this`rings
      ensures rings == InAll(key, old(rings), e) && affected == LowersIn(key, rings, e, |rings|)
    {
      affected := {};
      ghost var goal := InAll(key, rings, e);
      for i := 0 to |rings|
        invariant |rings| == |old(rings)| == |goal|
        invariant forall j | 0 <= j < i :: rings[j] == goal[j]
        invariant forall j | i <= j < |rings| :: rings[j] == old(rings)[j]
        invariant affected == LowersIn(key, goal, e, i)
      {
        rings := rings[i := Insert(key, rings[i], e)];
        var lower := Lower(key, rings[i], e);
        if lower.Some? { affected := affected + {lower.value}; }
      }
      assert rings == goal;
    }

    /** `ring_delete`. */
    method RingDelete(e: Endpoint) returns (r: Answer<()>)
      requires 0 < k == |rings|
      modifies this`rings, this`allNodes, this`cachedObservers, this`configurationDirty
      ensures |rings| == k
      ensures if Contains(key, old(rings)[0], e)
              then r == Answered(()) && Raw() == RawDelete(key, old(Raw()), e) && configurationDirty
              else r == Rejected(EndpointNotInRing) && Raw() == old(Raw())
                   && configurationDirty == old(configurationDirty)
      ensures old(Valid()) && e in universe ==>
                && Valid()
                && match Deleted(old(Abstract()), e)
                   case None => r.Rejected? && Abstract() == old(Abstract())
                   case Some(v) =>
                     && r == Answered(()) && Abstract() == v
                     && Survivors(key, k, old(allNodes), e, old(cachedObservers), cachedObservers)
    {
      ghost var before, ok := Raw(), Valid() && e in universe;
      if ok {
        StillCollisionFree(key, k, universe, allNodes + {e});
        FoundIsMember(key, k, before, e);
      }
      if !Contains(key, rings[0], e) { return Rejected(EndpointNotInRing); }
      var affected := RemoveFromRings(e);
      allNodes := allNodes - {e};
      cachedObservers := cachedObservers - {e};
      cachedObservers := cachedObservers - affected;
      configurationDirty := true;
      r := Answered(());
      if ok {
        DeleteKeepsRings(key, k, before, e);
      }
    }

    /** The ring loop of `ring_delete`: note the lower element on each ring, and remove. */
    method RemoveFromRings(e: Endpoint) returns (affected: set<Endpoint>)
      modifies this`rings
      ensures rings == OutOfAll(key, old(rings), e) && affected == LowersIn(key, old(rings), e, |old(rings)|)
    {
      affected := {};
      for i := 0 to |rings|
        invariant |rings| == |old(rings)|
        invariant forall j | 0 <= j < i :: rings[j] == Remove(key, old(rings)[j], e)
        invariant forall j | i <= j < |rings| :: rings[j] == old(rings)[j]
        invariant affected == LowersIn(key, old(rings), e, i)
      {
        var lower := Lower(key, rings[i], e);
        if lower.Some? { affected := affected + {lower.value}; }
        rings := rings[i := Remove(key, rings[i], e)];
      }
    }

    /** Answers have an observer for every ring, or none at all. */
    lemma AnswerLength(n: Endpoint)
      requires Valid()
      ensures |Answer(n)| == 0 || |Answer(n)| == k
    {
    }

    /** `membership_size`: the length of ring 0. */
    method MembershipSize() returns (n: nat)
      requires 0 < k == |rings|
      ensures n == |rings[0].byHash| && (Valid() ==> n == |allNodes|)
    {
      n := |rings[0].byHash|;
      if Valid() {
        RingSize(key, k, rings, allNodes);
      }
    }

    /** `is_host_present`. */
    method IsHostPresent(e: Endpoint) returns (b: bool)
      ensures b <==> e in allNodes
    {
      b := e in allNodes;
    }

    /** `get_observers_of`: the cached entry, or a fresh one that is then cached. */
    method GetObserversOf(node: Endpoint) returns (r: Answer<seq<Endpoint>>)
      requires 0 < k == |rings|
      modifies this`cachedObservers
      ensures if node !in allNodes then r == Rejected(NodeNotInRing) && cachedObservers == old(cachedObservers)
              else
                && r == Answered(RawAnswer(key, old(Raw()), node))
                && cachedObservers == old(cachedObservers)[node := r.value]
      ensures old(Valid()) ==>
                && Valid()
                && (node in allNodes ==>
                      && r.value == old(Answer(node))
                      && forall i | 0 <= i < k :: EntryOk(key, k, allNodes, node, r.value, i))
                && forall n :: Answer(n) == old(Answer(n))
    {
      if node !in allNodes { return Rejected(NodeNotInRing); }
      if Valid() {
        LookupKeepsCache(key, k, Raw(), node);
      }
      if node in cachedObservers {
        assert cachedObservers[node := cachedObservers[node]] == cachedObservers;
        return Answered(cachedObservers[node]);
      }
      var observers := ComputeObserversOf(node);
      Remember(node, observers);
      r := Answered(observers);
    }

    /** The cache after a lookup. */
    method Remember(node: Endpoint, observers: seq<Endpoint>)
      modifies this`cachedObservers
      ensures cachedObservers == old(cachedObservers)[node := observers]
      ensures old(Valid()) && CacheOk(key, k, allNodes, old(cachedObservers)[node := observers]) ==>
                Valid() && (observers == old(Answer(node)) ==> forall n :: Answer(n) == old(Answer(n)))
    {
      cachedObservers := cachedObservers[node := observers];
    }

    method ComputeObserversOf(node: Endpoint) returns (observers: seq<Endpoint>)
      requires 0 < k == |rings|
      ensures observers == RawObservers(key, rings, node)
    {
      observers := [];
      if |rings[0].byHash| <= 1 { return; }
      for i := 0 to k
        invariant observers == NextOnRings(key, rings, node, i)
      {
        var next := Following(key, rings[i], node);
        if next.Some? { observers := observers + [next.value]; }
      }
    }

    method PredecessorsOf(node: Endpoint) returns (q: seq<Endpoint>)
      requires k == |rings|
      ensures q == PrevOnRings(key, rings, node, k)
    {
      q := [];
      for i := 0 to k
        invariant q == PrevOnRings(key, rings, node, i)
      {
        var prev := Preceding(key, rings[i], node);
        if prev.Some? { q := q + [prev.value]; }
      }
    }

    /** `get_subjects_of`. */
    method GetSubjectsOf(node: Endpoint) returns (r: Answer<seq<Endpoint>>)
      requires 0 < k == |rings|
      ensures r == if node in allNodes then Answered(RawSubjects(key, rings, node)) else Rejected(NodeNotInRing)
      ensures Valid() && node in allNodes ==> r == Answered(Subjects(key, k, allNodes, node))
    {
      if Valid() {
        LookupsAreThoseOfMembers(key, k, rings, allNodes, node);
      }
      if node !in allNodes { return Rejected(NodeNotInRing); }
      if |rings[0].byHash| <= 1 { return Answered([]); }
      var q := PredecessorsOf(node);
      r := Answered(q);
    }

    /** `get_expected_observers_of`. */
    method GetExpectedObserversOf(node: Endpoint) returns (q: seq<Endpoint>)
      requires 0 < k == |rings|
      ensures q == RawExpected(key, rings, node)
      ensures Valid() ==> q == ExpectedObservers(key, k, allNodes, node)
      ensures Valid() && node !in allNodes ==> q == Answer(node)
    {
      if Valid() {
        LookupsAreThoseOfMembers(key, k, rings, allNodes, node);
      }
      if |rings[0].byHash| == 0 { return []; }
      q := PredecessorsOf(node);
    }

    /** `current_identifiers`. */
    method CurrentIdentifiers() returns (ids: seq<NodeId>)
      ensures ids == IdentifierList(identifiers)
    {
      ids := IdentifierList(identifiers);
    }

    /** `get_ring`. */
    method GetRing(i: nat) returns (r: Answer<seq<Endpoint>>)
      requires k == |rings|
      ensures r == if i < k then Answered(Ordered(rings[i])) else Rejected(RingOutOfBounds)
      ensures Valid() && i < k ==> r == Answered(Ordered(RingOf(key, i, allNodes)))
    {
      if i >= k { return Rejected(RingOutOfBounds); }
      r := Answered(Ordered(rings[i]));
      assert Valid() ==> IsRing(key, rings[i], i, allNodes);
    }

    /** `get_ring_numbers`: the rings on which `observer` watches `subject`, ascending. */
    method GetRingNumbers(observer: Endpoint, subject: Endpoint) returns (r: Answer<seq<nat>>)
      requires 0 < k == |rings|
      ensures observer !in allNodes ==> r == Rejected(NodeNotInRing)
      ensures observer in allNodes ==>
                var subjects := RawSubjects(key, rings, observer);
                r == Answered(Positions(subjects, subject, |subjects|))
      ensures Valid() && observer in allNodes ==> r == Answered(RingNumbers(key, k, allNodes, observer, subject))
    {
      var subjects := GetSubjectsOf(observer);
      if subjects.Rejected? { return Rejected(subjects.error); }
      var out := PositionsOf(subjects.value, subject);
      r := Answered(out);
    }

    /** Views with the same members and identifiers are the same ring by ring and have the same
        configuration id, however they got there. */
    lemma HistoryIndependent(other: View)
      requires Valid() && other.Valid() && k == other.k && xx == other.xx && key == other.key
      requires Abstract() == other.Abstract()
      ensures rings == other.rings && idOf(Abstract()) == other.idOf(other.Abstract())
      ensures idOf(Abstract()) == ConfigurationOf(xx, key, Abstract())
    {
      assert ConfigurationOf(xx, key, Abstract()) == other.idOf(Abstract());
      forall i | 0 <= i < k ensures rings[i] == other.rings[i] {
        assert IsRing(key, rings[i], i, allNodes) && IsRing(key, other.rings[i], i, allNodes);
      }
    }

    /** `current_configuration_id`: refreshed only when the view changed since the last call. */
    method CurrentConfigurationId() returns (id: i64)
      requires 0 < k == |rings|
      modifies this`configurationId, this`configurationDirty
      ensures id == configurationId && !configurationDirty
      ensures id == if old(configurationDirty) then ConfigurationId(xx, IdentifierList(identifiers), Ordered(rings[0]))
                    else old(configurationId)
      ensures old(Valid()) ==> Valid() && id == idOf(Abstract())
    {
      if configurationDirty {
        configurationId := ConfigurationIdFor(xx, IdentifierList(identifiers), Ordered(rings[0]));
        assert old(Valid()) ==> configurationId == ConfigurationOf(xx, key, Abstract());
        configurationDirty := false;
      }
      id := configurationId;
    }
  }

  /** The positions below `n` that hold `x`, ascending. */
  function Positions(q: seq<Endpoint>, x: Endpoint, n: nat): seq<nat>
    requires n <= |q|
  {
    if n == 0 then [] else Positions(q, x, n - 1) + if q[n - 1] == x then [n - 1] else []
  }

  /** The loop of `get_ring_numbers`. */
  method PositionsOf(q: seq<Endpoint>, x: Endpoint) returns (out: seq<nat>)
    ensures out == Positions(q, x, |q|)
  {
    out := [];
    for i := 0 to |q|
      invariant out == Positions(q, x, i)
    {
      if q[i] == x { out := out + [i]; }
    }
  }

  lemma {:induction false} PositionsListed(q: seq<Endpoint>, x: Endpoint, n: nat)
    requires n <= |q|
    ensures forall i :: i in Positions(q, x, n) <==> 0 <= i < n && q[i] == x
    ensures forall i, j :: 0 <= i < j < |Positions(q, x, n)| ==> Positions(q, x, n)[i] < Positions(q, x, n)[j]
  {
    if n > 0 {
      var front := Positions(q, x, n - 1);
      PositionsListed(q, x, n - 1);
      assert forall i :: 0 <= i < |front| ==> front[i] in front;
    }
  }

  function RingNumbers(key: Keying, k: nat, s: set<Endpoint>, observer: Endpoint, subject: Endpoint): seq<nat>
    requires AllCollisionFree(key, k, s)
  {
    var subjects := Subjects(key, k, s, observer);
    Positions(subjects, subject, |subjects|)
  }

  /** `get_ring_numbers` lists exactly the rings on which `observer` watches `subject` ... */
  lemma RingNumbersListed(key: Keying, k: nat, s: set<Endpoint>, observer: Endpoint, subject: Endpoint)
    requires AllCollisionFree(key, k, s)
    ensures forall i :: i in RingNumbers(key, k, s, observer, subject) <==> i in WatchedOn(key, k, s, observer, subject)
  {
    var subjects := Subjects(key, k, s, observer);
    PositionsListed(subjects, subject, |subjects|);
  }

  /** ... each once, in ascending order. */
  lemma RingNumbersAscend(key: Keying, k: nat, s: set<Endpoint>, observer: Endpoint, subject: Endpoint)
    requires AllCollisionFree(key, k, s)
    ensures StrictlyAscending(RingNumbers(key, k, s, observer, subject))
  {
    var subjects := Subjects(key, k, s, observer);
    PositionsListed(subjects, subject, |subjects|);
  }
}
