/** Cardinality of finite sets: the counting that every quorum argument rests on. */
module SetFacts {

  lemma {:induction false} SubsetSize<T>(a: set<T>, b: set<T>)
    requires a <= b
    ensures |a| <= |b|
  {
    assert b == a + (b - a);
  }

  lemma AnyMember<T>(s: set<T>) returns (x: T)
    requires s != {}
    ensures x in s
  {
    x :| x in s;
  }

  lemma KeyFor<K, V>(m: map<K, V>, v: V) returns (x: K)
    requires v in m.Values
    ensures x in m && m[x] == v
  {
    x :| x in m && m[x] == v;
  }

  /** Two subsets of `whole` whose sizes add up to more than |whole| share an element. */
  lemma Overlap<T>(a: set<T>, b: set<T>, whole: set<T>) returns (x: T)
    requires a <= whole && b <= whole
    requires |a| + |b| > |whole|
    ensures x in a && x in b
  {
    SubsetSize(a + b, whole);
    assert |a + b| == |a| + |b| - |a * b|;
    x :| x in a * b;
  }

  /** A duplicate-free sequence has as many elements as the set of its elements. */
  lemma {:induction false} DistinctSize<T>(s: seq<T>)
    requires forall i, j :: 0 <= i < j < |s| ==> s[i] != s[j]
    ensures |set x | x in s| == |s|
  {
    if s != [] {
      var front, last := s[..|s| - 1], s[|s| - 1];
      DistinctSize(front);
      assert (set x | x in s) == (set x | x in front) + {last};
    }
  }
}
