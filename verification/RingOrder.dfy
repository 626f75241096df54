/** One monitoring ring (ring.rs): the endpoints in a map ordered by their signed hash. */
module RingOrder {
  import opened Types
  import opened SetFacts
  import opened Listings
  import opened KeyOrder
  import opened Hashing

  /** `by_hash` is ordered by key; the order is in the queries below, not in the map. */
  datatype Ring = Ring(seed: nat, byHash: map<int, Endpoint>)

  /** The sort key of an endpoint on the ring with a given seed. */
  type Keying = (nat, Endpoint) -> int

  /** `Ring::key`: the address hash read as a signed number. */
  function AddressKey(xx: Hash64): Keying { (seed: nat, e: Endpoint) => Signed(AddressHash(xx, seed, e)) }

  // ---------------------------------------------------------------- the operations

  function Insert(key: Keying, r: Ring, e: Endpoint): Ring {
    if key(r.seed, e) in r.byHash then r else r.(byHash := r.byHash[key(r.seed, e) := e])
  }

  function Remove(key: Keying, r: Ring, e: Endpoint): Ring {
    r.(byHash := r.byHash - {key(r.seed, e)})
  }

  predicate Contains(key: Keying, r: Ring, e: Endpoint) { key(r.seed, e) in r.byHash }

  /** Greatest element strictly below. */
  function Lower(key: Keying, r: Ring, e: Endpoint): Option<Endpoint> {
    var below := Below(r.byHash.Keys, key(r.seed, e));
    if below == {} then None else Some(r.byHash[Greatest(below)])
  }

  /** Least element strictly above. */
  function Higher(key: Keying, r: Ring, e: Endpoint): Option<Endpoint> {
    var above := Above(r.byHash.Keys, key(r.seed, e));
    if above == {} then None else Some(r.byHash[Least(above)])
  }

  function First(r: Ring): Option<Endpoint> {
    if r.byHash.Keys == {} then None else Some(r.byHash[Least(r.byHash.Keys)])
  }

  function Last(r: Ring): Option<Endpoint> {
    if r.byHash.Keys == {} then None else Some(r.byHash[Greatest(r.byHash.Keys)])
  }

  /** All elements, in hash order. */
  function Ordered(r: Ring): seq<Endpoint> { Values(r.byHash) }

  /** `higher(e).or_else(first)` and `lower(e).or_else(last)`. */
  function Following(key: Keying, r: Ring, e: Endpoint): Option<Endpoint> {
    if Higher(key, r, e).Some? then Higher(key, r, e) else First(r)
  }

  function Preceding(key: Keying, r: Ring, e: Endpoint): Option<Endpoint> {
    if Lower(key, r, e).Some? then Lower(key, r, e) else Last(r)
  }

  // ---------------------------------------------------------------- the ring of a member set

  predicate Collide(key: Keying, seed: nat, e: Endpoint, f: Endpoint) { e != f && key(seed, e) == key(seed, f) }

  /** Distinct endpoints have distinct keys on the ring with this seed. */
  predicate CollisionFree(key: Keying, seed: nat, s: set<Endpoint>) {
    forall e, f {:trigger Collide(key, seed, e, f)} :: e in s && f in s ==> !Collide(key, seed, e, f)
  }

  lemma Apart(key: Keying, seed: nat, s: set<Endpoint>)
    requires CollisionFree(key, seed, s)
    ensures forall e, f :: e in s && f in s && key(seed, e) == key(seed, f) ==> e == f
  {
    forall e, f | e in s && f in s && key(seed, e) == key(seed, f) ensures e == f {
      assert !Collide(key, seed, e, f);
    }
  }

  function Keys(key: Keying, seed: nat, s: set<Endpoint>): set<int> { set e | e in s :: key(seed, e) }

  function RingOf(key: Keying, seed: nat, s: set<Endpoint>): Ring
    requires CollisionFree(key, seed, s)
  {
    Apart(key, seed, s);
    Ring(seed, map e | e in s :: key(seed, e) := e)
  }

  lemma RingOfKeys(key: Keying, seed: nat, s: set<Endpoint>)
    requires CollisionFree(key, seed, s)
    ensures RingOf(key, seed, s).byHash.Keys == Keys(key, seed, s)
    ensures forall e :: e in s ==>
              key(seed, e) in Keys(key, seed, s) && RingOf(key, seed, s).byHash[key(seed, e)] == e
    ensures |Keys(key, seed, s)| == |s|
  {
    Apart(key, seed, s);
    KeyCount(key, seed, s);
  }

  lemma {:induction false} KeyCount(key: Keying, seed: nat, s: set<Endpoint>)
    requires CollisionFree(key, seed, s)
    ensures |Keys(key, seed, s)| == |s|
    decreases |s|
  {
    if s != {} {
      var e := AnyMember(s);
      Apart(key, seed, s);
      KeyCount(key, seed, s - {e});
      assert Keys(key, seed, s) == Keys(key, seed, s - {e}) + {key(seed, e)};
    } else {
      assert Keys(key, seed, s) == {};
    }
  }

  /** A ring is the ring of a set when it holds exactly the members, each under its key. */
  lemma IsRingOf(key: Keying, r: Ring, s: set<Endpoint>)
    requires CollisionFree(key, r.seed, s)
    requires forall e :: e in s ==> key(r.seed, e) in r.byHash && r.byHash[key(r.seed, e)] == e
    requires forall x :: x in r.byHash ==> r.byHash[x] in s && key(r.seed, r.byHash[x]) == x
    ensures r == RingOf(key, r.seed, s)
  {
    var m := RingOf(key, r.seed, s).byHash;
    RingOfKeys(key, r.seed, s);
    assert forall x :: x in m ==> x in r.byHash && r.byHash[x] == m[x];
    assert r.byHash == m;
  }

  lemma InsertAddsMember(key: Keying, seed: nat, s: set<Endpoint>, e: Endpoint)
    requires CollisionFree(key, seed, s) && CollisionFree(key, seed, s + {e})
    ensures Insert(key, RingOf(key, seed, s), e) == RingOf(key, seed, s + {e})
  {
    Apart(key, seed, s + {e});
    IsRingOf(key, Insert(key, RingOf(key, seed, s), e), s + {e});
  }

  lemma RemoveDropsMember(key: Keying, seed: nat, s: set<Endpoint>, e: Endpoint)
    requires CollisionFree(key, seed, s) && e in s
    ensures CollisionFree(key, seed, s - {e})
    ensures Remove(key, RingOf(key, seed, s), e) == RingOf(key, seed, s - {e})
  {
    Apart(key, seed, s);
    IsRingOf(key, Remove(key, RingOf(key, seed, s), e), s - {e});
  }

  lemma ContainsIsMembership(key: Keying, seed: nat, s: set<Endpoint>, e: Endpoint)
    requires CollisionFree(key, seed, s) && CollisionFree(key, seed, s + {e})
    ensures Contains(key, RingOf(key, seed, s), e) <==> e in s
  {
    Apart(key, seed, s + {e});
  }

  /** The members in hash order: each exactly once, by increasing key. */
  lemma OrderedLists(key: Keying, seed: nat, s: set<Endpoint>)
    requires CollisionFree(key, seed, s)
    ensures |Ordered(RingOf(key, seed, s))| == |s|
    ensures forall e :: e in Ordered(RingOf(key, seed, s)) <==> e in s
    ensures forall i, j :: 0 <= i < j < |s| ==>
              key(seed, Ordered(RingOf(key, seed, s))[i]) < key(seed, Ordered(RingOf(key, seed, s))[j])
  {
    var q, byHash := Ordered(RingOf(key, seed, s)), RingOf(key, seed, s).byHash;
    RingOfKeys(key, seed, s);
    ValuesList(byHash);
    forall i, j | 0 <= i < j < |s| ensures key(seed, q[i]) < key(seed, q[j]) {
      Before(byHash.Keys, i, j);
    }
  }

  /** Ring order is the only ascending listing of the members. */
  lemma OrderedUnique(key: Keying, seed: nat, s: set<Endpoint>, q: seq<Endpoint>)
    requires CollisionFree(key, seed, s) && Lists(q, s)
    requires forall i, j :: 0 <= i < j < |q| ==> key(seed, q[i]) <= key(seed, q[j])
    ensures q == Ordered(RingOf(key, seed, s))
  {
    var keys := KeysOf(key, seed, q);
    var byHash := RingOf(key, seed, s).byHash;
    RingOfKeys(key, seed, s);
    ListedKeys(key, seed, s, q);
    AscendingUnique(keys, byHash.Keys);
    ValuesList(byHash);
    forall i | 0 <= i < |q| ensures q[i] == Ordered(RingOf(key, seed, s))[i] {
      assert q[i] in q && byHash[keys[i]] == q[i];
    }
  }

  function KeysOf(key: Keying, seed: nat, q: seq<Endpoint>): seq<int> {
    seq(|q|, i requires 0 <= i < |q| => key(seed, q[i]))
  }

  lemma ListedKeys(key: Keying, seed: nat, s: set<Endpoint>, q: seq<Endpoint>)
    requires CollisionFree(key, seed, s) && Lists(q, s)
    requires forall i, j :: 0 <= i < j < |q| ==> key(seed, q[i]) <= key(seed, q[j])
    ensures StrictlyAscending(KeysOf(key, seed, q))
    ensures forall x :: x in KeysOf(key, seed, q) <==> x in Keys(key, seed, s)
  {
    var keys := KeysOf(key, seed, q);
    assert forall i :: 0 <= i < |q| ==> q[i] in q;
    forall i, j | 0 <= i < j < |keys| ensures keys[i] < keys[j] {
      assert !Collide(key, seed, q[i], q[j]);
    }
    forall x | x in Keys(key, seed, s) ensures x in keys {
      var e :| e in s && key(seed, e) == x;
      var i :| 0 <= i < |q| && q[i] == e;
      assert keys[i] == x;
    }
  }

  // ---------------------------------------------------------------- neighbours among members

  /** The endpoint after `e`, a member or not, among the members `s`. */
  function Succ(key: Keying, seed: nat, s: set<Endpoint>, e: Endpoint): Endpoint
    requires CollisionFree(key, seed, s) && s != {}
  {
    RingOfKeys(key, seed, s);
    NextIsKey(Keys(key, seed, s), key(seed, e));
    RingOf(key, seed, s).byHash[Next(Keys(key, seed, s), key(seed, e))]
  }

  function Pred(key: Keying, seed: nat, s: set<Endpoint>, e: Endpoint): Endpoint
    requires CollisionFree(key, seed, s) && s != {}
  {
    RingOfKeys(key, seed, s);
    NextIsKey(Keys(key, seed, s), key(seed, e));
    RingOf(key, seed, s).byHash[Prev(Keys(key, seed, s), key(seed, e))]
  }

  lemma NextIsKey(keys: set<int>, x: int)
    requires keys != {}
    ensures Next(keys, x) in keys && Prev(keys, x) in keys
  {
  }

  /** Neighbours in terms of keys. */
  lemma NeighbourKeys(key: Keying, seed: nat, s: set<Endpoint>, e: Endpoint)
    requires CollisionFree(key, seed, s) && s != {}
    ensures Succ(key, seed, s, e) in s && Pred(key, seed, s, e) in s && Keys(key, seed, s) != {}
    ensures key(seed, Succ(key, seed, s, e)) == Next(Keys(key, seed, s), key(seed, e))
    ensures key(seed, Pred(key, seed, s, e)) == Prev(Keys(key, seed, s), key(seed, e))
  {
    RingOfKeys(key, seed, s);
    NextIsKey(Keys(key, seed, s), key(seed, e));
  }

  /** What the wrapping lookups of the source compute. */
  lemma LookupsAreNeighbours(key: Keying, seed: nat, s: set<Endpoint>, e: Endpoint)
    requires CollisionFree(key, seed, s) && s != {}
    ensures Following(key, RingOf(key, seed, s), e) == Some(Succ(key, seed, s, e))
    ensures Preceding(key, RingOf(key, seed, s), e) == Some(Pred(key, seed, s, e))
  {
    RingOfKeys(key, seed, s);
    NextIsKey(Keys(key, seed, s), key(seed, e));
  }

  /** Among two or more members, successor and predecessor are inverse and move every member. */
  lemma NeighboursInvert(key: Keying, seed: nat, s: set<Endpoint>, e: Endpoint)
    requires CollisionFree(key, seed, s) && e in s && |s| >= 2
    ensures Succ(key, seed, s, e) in s && Succ(key, seed, s, e) != e
    ensures Pred(key, seed, s, e) in s && Pred(key, seed, s, e) != e
    ensures Pred(key, seed, s, Succ(key, seed, s, e)) == e
    ensures Succ(key, seed, s, Pred(key, seed, s, e)) == e
  {
    RingOfKeys(key, seed, s);
    PrevOfNext(Keys(key, seed, s), key(seed, e));
    NextOfPrev(Keys(key, seed, s), key(seed, e));
    NeighbourKeys(key, seed, s, e);
  }

  function Steps(key: Keying, seed: nat, s: set<Endpoint>, e: Endpoint, n: nat): Endpoint
    requires CollisionFree(key, seed, s) && s != {}
  {
    if n == 0 then e else Succ(key, seed, s, Steps(key, seed, s, e, n - 1))
  }

  lemma {:induction false} StepsWalk(key: Keying, seed: nat, s: set<Endpoint>, e: Endpoint, n: nat)
    requires CollisionFree(key, seed, s) && e in s
    ensures Steps(key, seed, s, e, n) in s && Keys(key, seed, s) != {}
    ensures key(seed, Steps(key, seed, s, e, n)) == Walk(Keys(key, seed, s), key(seed, e), n)
  {
    RingOfKeys(key, seed, s);
    if n > 0 {
      StepsWalk(key, seed, s, e, n - 1);
      NeighbourKeys(key, seed, s, Steps(key, seed, s, e, n - 1));
    }
  }

  /** A ring is a single cycle: |s| successor steps return to the start ... */
  lemma RingReturns(key: Keying, seed: nat, s: set<Endpoint>, e: Endpoint)
    requires CollisionFree(key, seed, s) && e in s
    ensures Steps(key, seed, s, e, |s|) == e
  {
    RingOfKeys(key, seed, s);
    StepsWalk(key, seed, s, e, |s|);
    WalkReturns(Keys(key, seed, s), key(seed, e));
  }

  /** ... and reach every member after exactly one number of steps below |s|. */
  lemma RingReaches(key: Keying, seed: nat, s: set<Endpoint>, e: Endpoint, f: Endpoint) returns (n: nat)
    requires CollisionFree(key, seed, s) && e in s && f in s
    ensures n < |s| && Steps(key, seed, s, e, n) == f
    ensures forall m: nat :: m < |s| && Steps(key, seed, s, e, m) == f ==> m == n
  {
    RingOfKeys(key, seed, s);
    n := WalkReaches(Keys(key, seed, s), key(seed, e), key(seed, f));
    StepsWalk(key, seed, s, e, n);
    forall m: nat | m < |s| && Steps(key, seed, s, e, m) == f ensures m == n {
      StepsWalk(key, seed, s, e, m);
    }
  }

  // ---------------------------------------------------------------- what collisions cost

  /** Insert one after another. */
  function InsertAll(key: Keying, r: Ring, q: seq<Endpoint>): Ring
    decreases |q|
  {
    if q == [] then r else InsertAll(key, Insert(key, r, q[0]), q[1..])
  }

  /** All orders of insertion of `s` into an empty ring give the same ring. */
  ghost predicate OneRing(key: Keying, seed: nat, s: set<Endpoint>) {
    forall p, q {:trigger InsertAll(key, Ring(seed, map[]), p), InsertAll(key, Ring(seed, map[]), q)} |
      Lists(p, s) && Lists(q, s) :: InsertAll(key, Ring(seed, map[]), p) == InsertAll(key, Ring(seed, map[]), q)
  }

  /** What is there stays: the first endpoint inserted under a key keeps it. */
  lemma {:induction false} FirstStays(key: Keying, r: Ring, q: seq<Endpoint>, x: int)
    requires x in r.byHash
    ensures InsertAll(key, r, q).seed == r.seed
    ensures x in InsertAll(key, r, q).byHash && InsertAll(key, r, q).byHash[x] == r.byHash[x]
    decreases |q|
  {
    if q != [] {
      FirstStays(key, Insert(key, r, q[0]), q[1..], x);
    }
  }

  /** Without collisions, inserting a listing in any order gives the ring of the set. */
  lemma {:induction false} InsertAllIsRing(key: Keying, seed: nat, have: set<Endpoint>, q: seq<Endpoint>,
                                           s: set<Endpoint>)
    requires CollisionFree(key, seed, s) && have <= s && s == have + set e | e in q
    ensures CollisionFree(key, seed, have)
    ensures InsertAll(key, RingOf(key, seed, have), q) == RingOf(key, seed, s)
    decreases |q|
  {
    assert CollisionFree(key, seed, have);
    if q == [] {
      assert have == s;
    } else {
      assert q == [q[0]] + q[1..];
      assert CollisionFree(key, seed, have + {q[0]});
      InsertAddsMember(key, seed, have, q[0]);
      InsertAllIsRing(key, seed, have + {q[0]}, q[1..], s);
    }
  }

  lemma EmptyRing(key: Keying, seed: nat)
    ensures CollisionFree(key, seed, {}) && RingOf(key, seed, {}) == Ring(seed, map[])
  {
    IsRingOf(key, Ring(seed, map[]), {});
  }

  /** Two endpoints of `s` with the same key: the one inserted first shuts the other out. */
  lemma CollisionShows(key: Keying, seed: nat, s: set<Endpoint>, e: Endpoint, f: Endpoint)
    requires e in s && f in s && Collide(key, seed, e, f)
    ensures !OneRing(key, seed, s)
  {
    var p := ListingFrom(s, e);
    var q := ListingFrom(s, f);
    var none := Ring(seed, map[]);
    FirstStays(key, Insert(key, none, e), p[1..], key(seed, e));
    FirstStays(key, Insert(key, none, f), q[1..], key(seed, f));
    assert InsertAll(key, none, p).byHash[key(seed, e)] == e;
    assert InsertAll(key, none, q).byHash[key(seed, e)] == f;
    assert InsertAll(key, none, p) != InsertAll(key, none, q);
  }

  /** A ring is independent of the order in which a set was inserted exactly when no two endpoints
      of the set share a key. */
  lemma OneRingIffCollisionFree(key: Keying, seed: nat, s: set<Endpoint>)
    ensures OneRing(key, seed, s) <==> CollisionFree(key, seed, s)
  {
    if CollisionFree(key, seed, s) {
      EmptyRing(key, seed);
      forall p, q | Lists(p, s) && Lists(q, s)
        ensures InsertAll(key, Ring(seed, map[]), p) == InsertAll(key, Ring(seed, map[]), q)
      {
        assert s == {} + set e | e in p;
        assert s == {} + set e | e in q;
        InsertAllIsRing(key, seed, {}, p, s);
        InsertAllIsRing(key, seed, {}, q, s);
      }
    } else {
      var e, f :| e in s && f in s && Collide(key, seed, e, f);
      CollisionShows(key, seed, s, e, f);
    }
  }
}
