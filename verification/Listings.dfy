/** Hash sets read out as lists: every element once, in no particular order. */
module Listings {
  predicate Distinct<T(==)>(q: seq<T>) {
    forall i, j :: 0 <= i < j < |q| ==> q[i] != q[j]
  }

  ghost predicate Lists<T(!new)>(q: seq<T>, s: set<T>) {
    Distinct(q) && forall e :: e in q <==> e in s
  }

  lemma JoinLists<T(!new)>(a: seq<T>, s: set<T>, b: seq<T>, t: set<T>)
    requires Lists(a, s) && Lists(b, t) && s !! t
    ensures Lists(a + b, s + t)
  {
    forall i, j | 0 <= i < j < |a + b| ensures (a + b)[i] != (a + b)[j] {
      if i < |a| <= j {
        assert a[i] in a && b[j - |a|] in b;
      }
    }
  }

  lemma {:induction false} AnyListing<T(!new)>(s: set<T>) returns (q: seq<T>)
    ensures Lists(q, s)
    decreases |s|
  {
    if s == {} {
      q := [];
    } else {
      var e :| e in s;
      var rest := AnyListing(s - {e});
      q := rest + [e];
      assert forall x :: x in q <==> x in rest || x == e;
      assert forall i :: 0 <= i < |rest| ==> rest[i] in rest;
    }
  }

  /** Some listing starts with `e`. */
  lemma ListingFrom<T(!new)>(s: set<T>, e: T) returns (q: seq<T>)
    requires e in s
    ensures Lists(q, s) && q != [] && q[0] == e
  {
    var rest := AnyListing(s - {e});
    q := [e] + rest;
    assert forall x :: x in q <==> x in rest || x == e;
    assert forall i :: 0 <= i < |rest| ==> rest[i] in rest;
  }

  /** The elements of a hash set in whatever order it yields them. */
  method SomeOrder<T(==, !new)>(s: set<T>) returns (out: seq<T>)
    ensures Lists(out, s)
  {
    out := [];
    var rest := s;
    while rest != {}
      invariant rest <= s && Distinct(out)
      invariant forall n :: n in out <==> n in s - rest
      decreases rest
    {
      var n :| n in rest;
      assert n !in out;
      assert forall m :: m in out + [n] <==> m in out || m == n;
      out := out + [n];
      rest := rest - {n};
    }
  }
}
