/** The canonical vote (service/alert_handler.rs:73-81): the endpoints of a cut, out of a hash set
    in any order, sorted by a key. Nodes that saw the same cut must vote with the same list. */
module CanonicalVote {
  import opened Types
  import opened SetFacts
  import opened Listings

  type SortKey = Endpoint -> int

  predicate SortedBy(rank: SortKey, q: seq<Endpoint>) {
    forall i, j :: 0 <= i < j < |q| ==> rank(q[i]) <= rank(q[j])
  }

  /** A stable insertion into a sorted list, behind the elements of equal rank. */
  function InsertBy(rank: SortKey, q: seq<Endpoint>, e: Endpoint): seq<Endpoint> {
    if q == [] || rank(q[|q| - 1]) <= rank(e) then q + [e]
    else InsertBy(rank, q[..|q| - 1], e) + [q[|q| - 1]]
  }

  /** `sort_by_key`, which is stable. */
  function SortBy(rank: SortKey, q: seq<Endpoint>): seq<Endpoint> {
    if q == [] then [] else InsertBy(rank, SortBy(rank, q[..|q| - 1]), q[|q| - 1])
  }

  lemma {:induction false} InsertContents(rank: SortKey, q: seq<Endpoint>, e: Endpoint)
    ensures multiset(InsertBy(rank, q, e)) == multiset(q) + multiset{e}
  {
    if q != [] && rank(q[|q| - 1]) > rank(e) {
      InsertContents(rank, q[..|q| - 1], e);
      assert q == q[..|q| - 1] + [q[|q| - 1]];
    }
  }

  lemma {:induction false} InsertKeeps(rank: SortKey, q: seq<Endpoint>, e: Endpoint)
    requires SortedBy(rank, q)
    ensures SortedBy(rank, InsertBy(rank, q, e))
  {
    if q != [] && rank(q[|q| - 1]) > rank(e) {
      var front, last := q[..|q| - 1], q[|q| - 1];
      InsertKeeps(rank, front, e);
      AllBelow(rank, front, e, rank(last));
    }
  }

  lemma AllBelow(rank: SortKey, q: seq<Endpoint>, e: Endpoint, top: int)
    requires rank(e) <= top && forall i :: 0 <= i < |q| ==> rank(q[i]) <= top
    ensures forall i :: 0 <= i < |InsertBy(rank, q, e)| ==> rank(InsertBy(rank, q, e)[i]) <= top
  {
    var r := InsertBy(rank, q, e);
    InsertContents(rank, q, e);
    forall i | 0 <= i < |r| ensures rank(r[i]) <= top {
      assert r[i] in multiset(r);
      assert r[i] == e || r[i] in q;
    }
  }

  lemma {:induction false} SortSorts(rank: SortKey, q: seq<Endpoint>)
    ensures SortedBy(rank, SortBy(rank, q)) && multiset(SortBy(rank, q)) == multiset(q)
  {
    if q != [] {
      var front, last := q[..|q| - 1], q[|q| - 1];
      SortSorts(rank, front);
      InsertKeeps(rank, SortBy(rank, front), last);
      InsertContents(rank, SortBy(rank, front), last);
      assert q == front + [last];
    }
  }

  lemma MultisetLists(q: seq<Endpoint>, p: seq<Endpoint>, s: set<Endpoint>)
    requires Lists(q, s) && multiset(p) == multiset(q)
    ensures Lists(p, s)
  {
    forall e ensures e in p <==> e in q { assert e in multiset(p) <==> e in multiset(q); }
    forall i, j | 0 <= i < j < |p| ensures p[i] != p[j] {
      if p[i] == p[j] {
        TwiceCounted(p, i, j);
        DistinctCount(q, p[i]);
      }
    }
  }

  lemma TwiceCounted(p: seq<Endpoint>, i: nat, j: nat)
    requires i < j < |p| && p[i] == p[j]
    ensures multiset(p)[p[i]] >= 2
  {
    assert p == p[..j] + p[j..];
    assert p[i] in p[..j] && p[j] in p[j..];
  }

  lemma {:induction false} DistinctCount(q: seq<Endpoint>, e: Endpoint)
    requires Distinct(q)
    ensures multiset(q)[e] <= 1
  {
    if q != [] {
      var front, last := q[..|q| - 1], q[|q| - 1];
      DistinctCount(front, e);
      assert q == front + [last];
      assert last !in front;
    }
  }

  /** The vote: sorted, and the cut exactly, each endpoint once. */
  lemma VoteIsSortedCut(rank: SortKey, q: seq<Endpoint>, s: set<Endpoint>)
    requires Lists(q, s)
    ensures SortedBy(rank, SortBy(rank, q)) && Lists(SortBy(rank, q), s)
  {
    SortSorts(rank, q);
    MultisetLists(q, SortBy(rank, q), s);
  }

  predicate Tie(rank: SortKey, e: Endpoint, f: Endpoint) { e != f && rank(e) == rank(f) }

  predicate NoTies(rank: SortKey, s: set<Endpoint>) {
    forall e, f {:trigger Tie(rank, e, f)} :: e in s && f in s ==> !Tie(rank, e, f)
  }

  lemma EmptyListing(q: seq<Endpoint>, s: set<Endpoint>)
    requires Lists(q, s) && forall e :: e !in s
    ensures |q| == 0
  {
    DistinctSize(q);
    assert (set x | x in q) == {};
  }

  /** Two sorted listings of a set without ties are the same list. */
  lemma {:induction false} SortedListingUnique(rank: SortKey, p: seq<Endpoint>, q: seq<Endpoint>, s: set<Endpoint>)
    requires Lists(p, s) && Lists(q, s) && SortedBy(rank, p) && SortedBy(rank, q) && NoTies(rank, s)
    ensures p == q
    decreases |p|
  {
    if p == [] {
      assert forall e :: e !in s;
      EmptyListing(q, s);
    } else {
      var e := p[0];
      assert e in p && e in q;
      assert q[0] in q && q[0] in p;
      var i :| 0 <= i < |q| && q[i] == e;
      var j :| 0 <= j < |p| && p[j] == q[0];
      assert rank(q[0]) <= rank(e) <= rank(q[0]);
      assert !Tie(rank, e, q[0]);
      TailLists(p, s);
      TailLists(q, s);
      SortedListingUnique(rank, p[1..], q[1..], s - {e});
      assert p == [e] + p[1..] && q == [e] + q[1..];
    }
  }

  lemma TailLists(p: seq<Endpoint>, s: set<Endpoint>)
    requires Lists(p, s) && p != []
    ensures Lists(p[1..], s - {p[0]})
  {
    assert p == [p[0]] + p[1..];
    forall e ensures e in p[1..] <==> e in s - {p[0]} { assert e in p <==> e in s; }
  }

  /** All nodes that saw the cut `s` vote alike, whatever order their hash sets yield it in. */
  ghost predicate OneVote(rank: SortKey, s: set<Endpoint>) {
    forall p, q {:trigger SortBy(rank, p), SortBy(rank, q)} | Lists(p, s) && Lists(q, s) ::
      SortBy(rank, p) == SortBy(rank, q)
  }

  /** One vote per cut exactly when no two endpoints of the cut have the same key. */
  lemma OneVoteIffNoTies(rank: SortKey, s: set<Endpoint>)
    ensures OneVote(rank, s) <==> NoTies(rank, s)
  {
    if NoTies(rank, s) {
      forall p, q | Lists(p, s) && Lists(q, s) ensures SortBy(rank, p) == SortBy(rank, q) {
        VoteIsSortedCut(rank, p, s);
        VoteIsSortedCut(rank, q, s);
        SortedListingUnique(rank, SortBy(rank, p), SortBy(rank, q), s);
      }
    } else {
      var e, f :| e in s && f in s && Tie(rank, e, f);
      TiesShow(rank, s, e, f);
    }
  }

  /** With a tie, the order in which the tied endpoints come out of the hash set shows. */
  lemma TiesShow(rank: SortKey, s: set<Endpoint>, e: Endpoint, f: Endpoint)
    requires e in s && f in s && Tie(rank, e, f)
    ensures !OneVote(rank, s)
  {
    var rest := AnyListing(s - {e, f});
    var p, q := rest + [e] + [f], rest + [f] + [e];
    ListingEndsIn(rest, s, e, f);
    ListingEndsIn(rest, s, f, e);
    VoteIsSortedCut(rank, p, s);
    var i, j := TiedOrder(rank, rest, e, f);
    var i', j' := TiedOrder(rank, rest, f, e);
    assert SortBy(rank, p) == SortBy(rank, q) ==> i == j' && j == i';
    assert SortBy(rank, p) != SortBy(rank, q);
  }

  lemma ListingEndsIn(rest: seq<Endpoint>, s: set<Endpoint>, e: Endpoint, f: Endpoint)
    requires Lists(rest, s - {e, f}) && e in s && f in s && e != f
    ensures Lists(rest + [e] + [f], s)
  {
    var q := rest + [e] + [f];
    assert forall i :: 0 <= i < |rest| ==> rest[i] in rest;
    forall x ensures x in q <==> x in s { assert x in q <==> x in rest || x == e || x == f; }
  }

  /** What is not larger stays in front of the inserted element. */
  lemma {:induction false} InsertBehind(rank: SortKey, q: seq<Endpoint>, e: Endpoint, i: nat) returns (j: nat)
    requires SortedBy(rank, q) && i < |q| && rank(q[i]) <= rank(e)
    ensures i < j < |InsertBy(rank, q, e)| && InsertBy(rank, q, e)[i] == q[i] && InsertBy(rank, q, e)[j] == e
  {
    if rank(q[|q| - 1]) <= rank(e) {
      j := |q|;
    } else {
      j := InsertBehind(rank, q[..|q| - 1], e, i);
    }
  }

  /** Sorting keeps `f` behind `e` when they tie. */
  lemma TiedOrder(rank: SortKey, rest: seq<Endpoint>, e: Endpoint, f: Endpoint) returns (i: nat, j: nat)
    requires rank(e) == rank(f)
    ensures i < j < |SortBy(rank, rest + [e] + [f])|
    ensures SortBy(rank, rest + [e] + [f])[i] == e && SortBy(rank, rest + [e] + [f])[j] == f
  {
    var front := rest + [e];
    assert (front + [f])[..|front|] == front;
    SortSorts(rank, front);
    var r := SortBy(rank, front);
    assert e in multiset(front);
    assert e in multiset(r);
    i :| 0 <= i < |r| && r[i] == e;
    j := InsertBehind(rank, r, f, i);
  }

  // ---------------------------------------------------------------- which key

  /** The vote is sorted by the unsigned hash, ring 0 by the same hash read as signed. */
  function UnsignedOf(signed: SortKey): SortKey {
    (e: Endpoint) => if signed(e) < 0 then signed(e) + 0x1_0000_0000_0000_0000 else signed(e)
  }

  predicate Straddles(signed: SortKey, e: Endpoint, f: Endpoint) { signed(e) < 0 <= signed(f) }

  /** A vote reads in ring-0 order exactly when its hashes are all below 2^63 or none is. */
  lemma RingOrderIffOneSided(signed: SortKey, q: seq<Endpoint>)
    requires forall e :: -0x8000_0000_0000_0000 <= signed(e) < 0x8000_0000_0000_0000
    requires SortedBy(UnsignedOf(signed), q)
    ensures SortedBy(signed, q) <==> forall e, f :: e in q && f in q ==> !Straddles(signed, e, f)
  {
    var u := UnsignedOf(signed);
    if SortedBy(signed, q) {
      forall e, f | e in q && f in q ensures !Straddles(signed, e, f) {
        var i :| 0 <= i < |q| && q[i] == e;
        var j :| 0 <= j < |q| && q[j] == f;
        assert u(e) >= 0x8000_0000_0000_0000 <==> signed(e) < 0;
        assert u(f) >= 0x8000_0000_0000_0000 <==> signed(f) < 0;
      }
    } else {
      var i, j :| 0 <= i < j < |q| && signed(q[i]) > signed(q[j]);
      assert u(q[i]) <= u(q[j]);
      assert Straddles(signed, q[j], q[i]);
    }
  }

  /** Two endpoints whose hashes lie on either side are a vote out of ring-0 order. */
  lemma StraddlingVote(signed: SortKey, e: Endpoint, f: Endpoint)
    requires forall x :: -0x8000_0000_0000_0000 <= signed(x) < 0x8000_0000_0000_0000
    requires Straddles(signed, e, f)
    ensures SortBy(UnsignedOf(signed), [e, f]) == [f, e] && !SortedBy(signed, [f, e])
  {
    var u, v := UnsignedOf(signed), [f, e];
    assert [e, f][..1] == [e] && [e][..0] == [];
    assert SortBy(u, [e]) == [e];
    assert u(f) < u(e);
    assert InsertBy(u, [e], f) == InsertBy(u, [e][..0], f) + [e];
    assert signed(v[0]) > signed(v[1]);
  }
}
