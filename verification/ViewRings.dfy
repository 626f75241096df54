/** K rings side by side (view.rs): what `bootstrap`, `ring_add` and `ring_delete` do to them and to
    the observer cache, with any hashing at all; and that without collisions they are the rings of
    the members. */
module ViewRings {
  import opened Types
  import opened Hashing
  import opened RingOrder
  import opened Membership
  import opened ObserverCache

  /** The fields of a view that its operations change together. */
  datatype RawView = RawView(
    rings: seq<Ring>, identifiers: set<NodeId>, allNodes: set<Endpoint>, cachedObservers: Cache)

  function EmptyRings(k: nat): seq<Ring> { seq(k, i requires 0 <= i < k => Ring(i, map[])) }

  function InAll(key: Keying, rings: seq<Ring>, e: Endpoint): seq<Ring> {
    seq(|rings|, i requires 0 <= i < |rings| => Insert(key, rings[i], e))
  }

  function OutOfAll(key: Keying, rings: seq<Ring>, e: Endpoint): seq<Ring> {
    seq(|rings|, i requires 0 <= i < |rings| => Remove(key, rings[i], e))
  }

  function EachInAll(key: Keying, rings: seq<Ring>, endpoints: seq<Endpoint>): seq<Ring>
    decreases |endpoints|
  {
    if endpoints == [] then rings else EachInAll(key, InAll(key, rings, endpoints[0]), endpoints[1..])
  }

  /** The lower elements of `e` on the first `n` rings. */
  function LowersIn(key: Keying, rings: seq<Ring>, e: Endpoint, n: nat): set<Endpoint>
    requires n <= |rings|
  {
    if n == 0 then {}
    else
      var lower := Lower(key, rings[n - 1], e);
      LowersIn(key, rings, e, n - 1) + if lower.Some? then {lower.value} else {}
  }

  /** `bootstrap`. */
  function RawBooted(key: Keying, k: nat, ids: seq<NodeId>, endpoints: seq<Endpoint>): RawView {
    RawView(EachInAll(key, EmptyRings(k), endpoints), set id | id in ids, set e | e in endpoints, map[])
  }

  /** What `ring_add` accepts. */
  predicate AddAccepted(key: Keying, v: RawView, e: Endpoint, id: NodeId)
    requires v.rings != []
  {
    id !in v.identifiers && !Contains(key, v.rings[0], e)
  }

  /** `ring_add`, once accepted. */
  function RawAdd(key: Keying, v: RawView, e: Endpoint, id: NodeId): RawView {
    var rings := InAll(key, v.rings, e);
    RawView(rings, v.identifiers + {id}, v.allNodes + {e}, v.cachedObservers - LowersIn(key, rings, e, |rings|))
  }

  /** `ring_delete`, once accepted. */
  function RawDelete(key: Keying, v: RawView, e: Endpoint): RawView {
    RawView(OutOfAll(key, v.rings, e), v.identifiers, v.allNodes - {e},
            v.cachedObservers - {e} - LowersIn(key, v.rings, e, |v.rings|))
  }

  // ---------------------------------------------------------------- the rings of the members

  /** `q` lists the rings from `i` on of the members `s`, at their own indices. */
  predicate IsRing(key: Keying, r: Ring, i: nat, s: set<Endpoint>) {
    CollisionFree(key, i, s) && r == RingOf(key, i, s)
  }

  predicate AreRings(key: Keying, q: seq<Ring>, from: nat, to: nat, s: set<Endpoint>)
    requires to <= |q|
  {
    forall j {:trigger q[j]} | from <= j < to :: IsRing(key, q[j], j, s)
  }

  /** The rings are those of the members, and the cache is right away from the wrap. */
  ghost predicate RawOk(key: Keying, k: nat, v: RawView) {
    && 0 < k == |v.rings| && AllCollisionFree(key, k, v.allNodes) && AreRings(key, v.rings, 0, k, v.allNodes)
    && CacheOk(key, k, v.allNodes, v.cachedObservers)
  }

  lemma StillCollisionFree(key: Keying, k: nat, universe: set<Endpoint>, s: set<Endpoint>)
    requires AllCollisionFree(key, k, universe) && s <= universe
    ensures AllCollisionFree(key, k, s)
  {
    forall i | 0 <= i < k ensures CollisionFree(key, i, s) {
      assert CollisionFree(key, i, universe);
    }
  }

  /** The members evicted on account of the rings below `n`. */
  function Affected(key: Keying, n: nat, s: set<Endpoint>, e: Endpoint): set<Endpoint> {
    set m | m in s && Evicted(key, n, s, e, m)
  }

  lemma LowerIsJustBelow(key: Keying, r: Ring, i: nat, s: set<Endpoint>, e: Endpoint)
    requires IsRing(key, r, i, s)
    ensures Lower(key, r, e).Some? ==> Lower(key, r, e).value in s && IsLower(key, i, s, Lower(key, r, e).value, e)
    ensures forall m :: m in s && IsLower(key, i, s, m, e) ==> Lower(key, r, e) == Some(m)
  {
    RingOfKeys(key, i, s);
  }

  lemma AffectedNext(key: Keying, i: nat, s: set<Endpoint>, e: Endpoint, lower: Option<Endpoint>)
    requires lower.Some? ==> lower.value in s && IsLower(key, i, s, lower.value, e)
    requires forall m :: m in s && IsLower(key, i, s, m, e) ==> lower == Some(m)
    ensures Affected(key, i + 1, s, e) == Affected(key, i, s, e) + if lower.Some? then {lower.value} else {}
  {
    forall m | m in s ensures Evicted(key, i + 1, s, e, m) <==> Evicted(key, i, s, e, m) || lower == Some(m) {
      EvictedNext(key, i, s, e, m);
    }
  }

  lemma EvictedNext(key: Keying, i: nat, s: set<Endpoint>, e: Endpoint, m: Endpoint)
    ensures Evicted(key, i + 1, s, e, m) <==> Evicted(key, i, s, e, m) || IsLower(key, i, s, m, e)
  {
  }

  /** Dropping `e` and the affected members from the cache leaves the survivors. */
  lemma EvictionSurvivors(key: Keying, k: nat, s: set<Endpoint>, e: Endpoint, before: Cache, after: Cache)
    requires before.Keys <= s && after == before - {e} - Affected(key, k, s, e)
    ensures Survivors(key, k, s, e, before, after)
  {
  }

  /** The lower elements on the first `n` rings are the members evicted on their account. */
  predicate LowersRight(key: Keying, rings: seq<Ring>, s: set<Endpoint>, e: Endpoint, n: nat)
    requires n <= |rings|
  {
    LowersIn(key, rings, e, n) == Affected(key, n, s, e)
  }

  lemma NoneAffected(key: Keying, rings: seq<Ring>, s: set<Endpoint>, e: Endpoint)
    ensures LowersRight(key, rings, s, e, 0)
  {
    assert forall m :: !Evicted(key, 0, s, e, m);
  }

  lemma LowersRightStep(key: Keying, rings: seq<Ring>, s: set<Endpoint>, e: Endpoint, i: nat)
    requires i < |rings| && IsRing(key, rings[i], i, s) && LowersRight(key, rings, s, e, i)
    ensures LowersRight(key, rings, s, e, i + 1)
  {
    OneMoreLower(key, rings[i], i, s, e);
    LowersNext(key, rings, e, i);
  }

  lemma {:induction false} LowersAreAffected(key: Keying, rings: seq<Ring>, s: set<Endpoint>, e: Endpoint, n: nat)
    requires n <= |rings| && AreRings(key, rings, 0, n, s)
    ensures LowersRight(key, rings, s, e, n)
  {
    if n == 0 {
      NoneAffected(key, rings, s, e);
    } else {
      LowersAreAffected(key, rings, s, e, n - 1);
      assert IsRing(key, rings[n - 1], n - 1, s);
      LowersRightStep(key, rings, s, e, n - 1);
    }
  }

  lemma LowersNext(key: Keying, rings: seq<Ring>, e: Endpoint, i: nat)
    requires i < |rings|
    ensures LowersIn(key, rings, e, i + 1)
            == LowersIn(key, rings, e, i)
               + if Lower(key, rings[i], e).Some? then {Lower(key, rings[i], e).value} else {}
  {
  }

  lemma OneMoreLower(key: Keying, r: Ring, i: nat, s: set<Endpoint>, e: Endpoint)
    requires IsRing(key, r, i, s)
    ensures Affected(key, i + 1, s, e)
            == Affected(key, i, s, e) + if Lower(key, r, e).Some? then {Lower(key, r, e).value} else {}
  {
    LowerIsJustBelow(key, r, i, s, e);
    AffectedNext(key, i, s, e, Lower(key, r, e));
  }

  lemma InAllAdds(key: Keying, k: nat, rings: seq<Ring>, s: set<Endpoint>, e: Endpoint)
    requires k == |rings| && AreRings(key, rings, 0, k, s) && AllCollisionFree(key, k, s + {e})
    ensures AreRings(key, InAll(key, rings, e), 0, k, s + {e})
  {
    forall i | 0 <= i < k ensures IsRing(key, InAll(key, rings, e)[i], i, s + {e}) {
      assert IsRing(key, rings[i], i, s);
      InsertAddsMember(key, i, s, e);
    }
  }

  lemma OutOfAllDrops(key: Keying, k: nat, rings: seq<Ring>, s: set<Endpoint>, e: Endpoint)
    requires k == |rings| && AreRings(key, rings, 0, k, s) && e in s
    ensures AreRings(key, OutOfAll(key, rings, e), 0, k, s - {e})
  {
    forall i | 0 <= i < k ensures IsRing(key, OutOfAll(key, rings, e)[i], i, s - {e}) {
      assert IsRing(key, rings[i], i, s);
      RemoveDropsMember(key, i, s, e);
    }
  }

  /** Whether the source finds `e` on ring 0 is whether it is a member. */
  lemma FoundIsMember(key: Keying, k: nat, v: RawView, e: Endpoint)
    requires RawOk(key, k, v) && AllCollisionFree(key, k, v.allNodes + {e})
    ensures Contains(key, v.rings[0], e) <==> e in v.allNodes
  {
    assert IsRing(key, v.rings[0], 0, v.allNodes);
    ContainsIsMembership(key, 0, v.allNodes, e);
  }

  /** An accepted add of an endpoint that collides with no member. */
  lemma AddKeepsRings(key: Keying, k: nat, v: RawView, e: Endpoint, id: NodeId)
    requires RawOk(key, k, v) && AllCollisionFree(key, k, v.allNodes + {e}) && e !in v.allNodes
    ensures RawOk(key, k, RawAdd(key, v, e, id))
    ensures Survivors(key, k, v.allNodes + {e}, e, v.cachedObservers, RawAdd(key, v, e, id).cachedObservers)
  {
    InAllAdds(key, k, v.rings, v.allNodes, e);
    LowersAreAffected(key, InAll(key, v.rings, e), v.allNodes + {e}, e, k);
    AddEvicts(key, k, v.allNodes, e, v.cachedObservers, RawAdd(key, v, e, id).cachedObservers);
  }

  lemma AddEvicts(key: Keying, k: nat, s: set<Endpoint>, e: Endpoint, before: Cache, after: Cache)
    requires AllCollisionFree(key, k, s) && AllCollisionFree(key, k, s + {e}) && e !in s
    requires CacheOk(key, k, s, before) && after == before - Affected(key, k, s + {e}, e)
    ensures Survivors(key, k, s + {e}, e, before, after) && CacheOk(key, k, s + {e}, after)
  {
    assert before - {e} == before;
    EvictionSurvivors(key, k, s + {e}, e, before, after);
    CacheAfterAdd(key, k, s, e, before, after);
  }

  lemma DeleteKeepsRings(key: Keying, k: nat, v: RawView, e: Endpoint)
    requires RawOk(key, k, v) && e in v.allNodes
    ensures RawOk(key, k, RawDelete(key, v, e))
    ensures Survivors(key, k, v.allNodes, e, v.cachedObservers, RawDelete(key, v, e).cachedObservers)
  {
    StillCollisionFree(key, k, v.allNodes, v.allNodes - {e});
    OutOfAllDrops(key, k, v.rings, v.allNodes, e);
    LowersAreAffected(key, v.rings, v.allNodes, e, k);
    EvictionSurvivors(key, k, v.allNodes, e, v.cachedObservers, RawDelete(key, v, e).cachedObservers);
    CacheAfterDelete(key, k, v.allNodes, e, v.cachedObservers, RawDelete(key, v, e).cachedObservers);
  }

  /** Bootstrapping from endpoints that do not collide. */
  lemma {:induction false} EachInAllAdds(key: Keying, k: nat, rings: seq<Ring>, s: set<Endpoint>,
                                         endpoints: seq<Endpoint>)
    requires k == |rings| && AreRings(key, rings, 0, k, s) && AllCollisionFree(key, k, s + set e | e in endpoints)
    ensures |EachInAll(key, rings, endpoints)| == k
    ensures AreRings(key, EachInAll(key, rings, endpoints), 0, k, s + set e | e in endpoints)
    decreases |endpoints|
  {
    var all := s + set e | e in endpoints;
    if endpoints == [] {
      assert all == s;
    } else {
      var e, rest := endpoints[0], endpoints[1..];
      assert endpoints == [e] + rest;
      assert all == (s + {e}) + set x | x in rest;
      StillCollisionFree(key, k, all, s + {e});
      InAllAdds(key, k, rings, s, e);
      EachInAllAdds(key, k, InAll(key, rings, e), s + {e}, rest);
    }
  }

  lemma BootedIsOk(key: Keying, k: nat, ids: seq<NodeId>, endpoints: seq<Endpoint>)
    requires 0 < k && AllCollisionFree(key, k, set e | e in endpoints)
    ensures RawOk(key, k, RawBooted(key, k, ids, endpoints))
  {
    var all := set e | e in endpoints;
    StillCollisionFree(key, k, all, {});
    forall i | 0 <= i < k ensures IsRing(key, EmptyRings(k)[i], i, {}) {
      EmptyRing(key, i);
    }
    assert {} + all == all;
    EachInAllAdds(key, k, EmptyRings(k), {}, endpoints);
  }

  // ---------------------------------------------------------------- lookups

  /** The next element on each of the first `n` rings that has one. */
  function NextOnRings(key: Keying, rings: seq<Ring>, e: Endpoint, n: nat): seq<Endpoint>
    requires n <= |rings|
  {
    if n == 0 then []
    else
      var next := Following(key, rings[n - 1], e);
      NextOnRings(key, rings, e, n - 1) + if next.Some? then [next.value] else []
  }

  function PrevOnRings(key: Keying, rings: seq<Ring>, e: Endpoint, n: nat): seq<Endpoint>
    requires n <= |rings|
  {
    if n == 0 then []
    else
      var prev := Preceding(key, rings[n - 1], e);
      PrevOnRings(key, rings, e, n - 1) + if prev.Some? then [prev.value] else []
  }

  /** `compute_observers_of`, `get_subjects_of` and `get_expected_observers_of` on the rings as they are. */
  function RawObservers(key: Keying, rings: seq<Ring>, e: Endpoint): seq<Endpoint>
    requires rings != []
  {
    if |rings[0].byHash| <= 1 then [] else NextOnRings(key, rings, e, |rings|)
  }

  function RawSubjects(key: Keying, rings: seq<Ring>, e: Endpoint): seq<Endpoint>
    requires rings != []
  {
    if |rings[0].byHash| <= 1 then [] else PrevOnRings(key, rings, e, |rings|)
  }

  function RawExpected(key: Keying, rings: seq<Ring>, e: Endpoint): seq<Endpoint>
    requires rings != []
  {
    if |rings[0].byHash| == 0 then [] else PrevOnRings(key, rings, e, |rings|)
  }

  /** What a lookup of the observers of a member answers. */
  function RawAnswer(key: Keying, w: RawView, e: Endpoint): seq<Endpoint>
    requires w.rings != []
  {
    if e in w.cachedObservers then w.cachedObservers[e] else RawObservers(key, w.rings, e)
  }

  lemma NextSuccessor(key: Keying, r: Ring, i: nat, s: set<Endpoint>, e: Endpoint)
    requires AllCollisionFree(key, i + 1, s) && s != {} && IsRing(key, r, i, s)
    ensures Following(key, r, e).Some?
    ensures Successors(key, i, s, e) + [Following(key, r, e).value] == Successors(key, i + 1, s, e)
  {
    LookupsAreNeighbours(key, i, s, e);
    SuccessorsSnoc(key, i, s, e);
  }

  lemma NextPredecessor(key: Keying, r: Ring, i: nat, s: set<Endpoint>, e: Endpoint)
    requires AllCollisionFree(key, i + 1, s) && s != {} && IsRing(key, r, i, s)
    ensures Preceding(key, r, e).Some?
    ensures Predecessors(key, i, s, e) + [Preceding(key, r, e).value] == Predecessors(key, i + 1, s, e)
  {
    LookupsAreNeighbours(key, i, s, e);
    PredecessorsSnoc(key, i, s, e);
  }

  lemma SuccessorsSnoc(key: Keying, i: nat, s: set<Endpoint>, e: Endpoint)
    requires AllCollisionFree(key, i + 1, s) && s != {}
    ensures Successors(key, i + 1, s, e) == Successors(key, i, s, e) + [Succ(key, i, s, e)]
  {
  }

  lemma PredecessorsSnoc(key: Keying, i: nat, s: set<Endpoint>, e: Endpoint)
    requires AllCollisionFree(key, i + 1, s) && s != {}
    ensures Predecessors(key, i + 1, s, e) == Predecessors(key, i, s, e) + [Pred(key, i, s, e)]
  {
  }

  /** The lookups on the first `n` rings are those of the members. */
  predicate NextRight(key: Keying, rings: seq<Ring>, s: set<Endpoint>, e: Endpoint, n: nat)
    requires n <= |rings|
  {
    s != {} && AllCollisionFree(key, n, s) && NextOnRings(key, rings, e, n) == Successors(key, n, s, e)
  }

  predicate PrevRight(key: Keying, rings: seq<Ring>, s: set<Endpoint>, e: Endpoint, n: nat)
    requires n <= |rings|
  {
    s != {} && AllCollisionFree(key, n, s) && PrevOnRings(key, rings, e, n) == Predecessors(key, n, s, e)
  }

  lemma NoRingsRight(key: Keying, rings: seq<Ring>, s: set<Endpoint>, e: Endpoint)
    requires s != {}
    ensures NextRight(key, rings, s, e, 0) && PrevRight(key, rings, s, e, 0)
  {
  }

  lemma NextRightStep(key: Keying, rings: seq<Ring>, s: set<Endpoint>, e: Endpoint, i: nat)
    requires i < |rings| && NextRight(key, rings, s, e, i) && IsRing(key, rings[i], i, s)
    ensures NextRight(key, rings, s, e, i + 1)
  {
    OneMoreRing(key, i, s);
    NextSuccessor(key, rings[i], i, s, e);
  }

  lemma PrevRightStep(key: Keying, rings: seq<Ring>, s: set<Endpoint>, e: Endpoint, i: nat)
    requires i < |rings| && PrevRight(key, rings, s, e, i) && IsRing(key, rings[i], i, s)
    ensures PrevRight(key, rings, s, e, i + 1)
  {
    OneMoreRing(key, i, s);
    NextPredecessor(key, rings[i], i, s, e);
  }

  lemma OneMoreRing(key: Keying, i: nat, s: set<Endpoint>)
    requires AllCollisionFree(key, i, s) && CollisionFree(key, i, s)
    ensures AllCollisionFree(key, i + 1, s)
  {
  }

  lemma {:induction false} AllRight(key: Keying, rings: seq<Ring>, s: set<Endpoint>, e: Endpoint, n: nat)
    requires n <= |rings| && s != {} && AreRings(key, rings, 0, |rings|, s)
    ensures NextRight(key, rings, s, e, n) && PrevRight(key, rings, s, e, n)
  {
    if n == 0 {
      NoRingsRight(key, rings, s, e);
    } else {
      AllRight(key, rings, s, e, n - 1);
      assert IsRing(key, rings[n - 1], n - 1, s);
      NextRightStep(key, rings, s, e, n - 1);
      PrevRightStep(key, rings, s, e, n - 1);
    }
  }

  lemma RingSize(key: Keying, k: nat, rings: seq<Ring>, s: set<Endpoint>)
    requires 0 < k == |rings| && AreRings(key, rings, 0, k, s)
    ensures |rings[0].byHash| == |s|
  {
    assert IsRing(key, rings[0], 0, s);
    RingOfKeys(key, 0, s);
  }

  /** Without collisions the lookups are those of the members. */
  lemma LookupsAreThoseOfMembers(key: Keying, k: nat, rings: seq<Ring>, s: set<Endpoint>, e: Endpoint)
    requires 0 < k == |rings| && AllCollisionFree(key, k, s) && AreRings(key, rings, 0, k, s)
    ensures RawObservers(key, rings, e) == Observers(key, k, s, e)
    ensures RawSubjects(key, rings, e) == Subjects(key, k, s, e)
    ensures RawExpected(key, rings, e) == ExpectedObservers(key, k, s, e)
  {
    RingSize(key, k, rings, s);
    if s != {} {
      AllRight(key, rings, s, e, k);
    }
  }

  lemma CachedEntry(key: Keying, k: nat, s: set<Endpoint>, cache: Cache, m: Endpoint)
    requires AllCollisionFree(key, k, s) && CacheOk(key, k, s, cache) && m in cache
    ensures s != {} && forall i | 0 <= i < k :: EntryOk(key, k, s, m, cache[m], i)
  {
  }

  /** Remembering what a lookup answered keeps the cache right away from the wrap. */
  lemma LookupKeepsCache(key: Keying, k: nat, w: RawView, e: Endpoint)
    requires RawOk(key, k, w) && e in w.allNodes
    ensures CacheOk(key, k, w.allNodes, w.cachedObservers[e := RawAnswer(key, w, e)])
    ensures forall i | 0 <= i < k :: EntryOk(key, k, w.allNodes, e, RawAnswer(key, w, e), i)
    ensures RawAnswer(key, w, e)
            == if e in w.cachedObservers then w.cachedObservers[e] else Observers(key, k, w.allNodes, e)
  {
    if e in w.cachedObservers {
      assert w.cachedObservers[e := w.cachedObservers[e]] == w.cachedObservers;
    } else {
      LookupsAreThoseOfMembers(key, k, w.rings, w.allNodes, e);
      CacheAfterLookup(key, k, w.allNodes, w.cachedObservers, e);
    }
    CachedEntry(key, k, w.allNodes, w.cachedObservers[e := RawAnswer(key, w, e)], e);
  }

  // ---------------------------------------------------------------- what collisions do to a view

  /** `e` is on ring `r`, in person. */
  predicate OnRing(r: Ring, e: Endpoint) { e in r.byHash.Values }

  /** An accepted add puts the newcomer on all K rings if and only if it collides with no member on
      any of them. On ring 0 a collision is a rejection; on a later ring the add is accepted, and
      the view lists a member that this ring does not hold. */
  lemma AddReachesAllRingsIff(key: Keying, k: nat, v: RawView, e: Endpoint, id: NodeId)
    requires RawOk(key, k, v) && e !in v.allNodes && AddAccepted(key, v, e, id)
    ensures (forall i | 0 <= i < k :: OnRing(RawAdd(key, v, e, id).rings[i], e))
            <==> AllCollisionFree(key, k, v.allNodes + {e})
  {
    forall i | 0 <= i < k
      ensures OnRing(RawAdd(key, v, e, id).rings[i], e) <==> CollisionFree(key, i, v.allNodes + {e})
    {
      assert IsRing(key, v.rings[i], i, v.allNodes);
      InsertReachesIff(key, i, v.allNodes, e);
    }
  }

  lemma InsertReachesIff(key: Keying, i: nat, s: set<Endpoint>, e: Endpoint)
    requires CollisionFree(key, i, s) && e !in s
    ensures OnRing(Insert(key, RingOf(key, i, s), e), e) <==> CollisionFree(key, i, s + {e})
  {
    var r := RingOf(key, i, s);
    RingOfKeys(key, i, s);
    if key(i, e) in r.byHash {
      ShutOut(key, i, s, e);
    } else {
      LetIn(key, i, s, e);
    }
  }

  lemma ShutOut(key: Keying, i: nat, s: set<Endpoint>, e: Endpoint)
    requires CollisionFree(key, i, s) && e !in s && key(i, e) in RingOf(key, i, s).byHash
    ensures !OnRing(Insert(key, RingOf(key, i, s), e), e) && !CollisionFree(key, i, s + {e})
  {
    RingOfKeys(key, i, s);
    assert Collide(key, i, RingOf(key, i, s).byHash[key(i, e)], e);
  }

  lemma LetIn(key: Keying, i: nat, s: set<Endpoint>, e: Endpoint)
    requires CollisionFree(key, i, s) && e !in s && key(i, e) !in RingOf(key, i, s).byHash
    ensures OnRing(Insert(key, RingOf(key, i, s), e), e) && CollisionFree(key, i, s + {e})
  {
    RingOfKeys(key, i, s);
    assert Insert(key, RingOf(key, i, s), e).byHash[key(i, e)] == e;
    forall f, g | f in s + {e} && g in s + {e} ensures !Collide(key, i, f, g) {
      assert f in s && g in s ==> !Collide(key, i, f, g);
    }
  }
}
