/** Finite sets of keys in ascending order, read as a list and as a cycle. This is what a
    `BTreeMap` offers its users: iteration, neighbours of a key, first and last. */
module KeyOrder {
  import opened SetFacts

  predicate IsLeast(s: set<int>, m: int) { m in s && forall x :: x in s ==> m <= x }

  predicate IsGreatest(s: set<int>, m: int) { m in s && forall x :: x in s ==> x <= m }

  lemma {:induction false} LeastExists(s: set<int>) returns (m: int)
    requires s != {}
    ensures IsLeast(s, m)
    decreases |s|
  {
    m := AnyMember(s);
    if s - {m} != {} {
      var rest := LeastExists(s - {m});
      assert forall x :: x in s ==> x == m || x in s - {m};
      if rest < m { m := rest; }
    } else {
      assert forall x :: x in s ==> x == m || x in s - {m};
    }
  }

  lemma {:induction false} GreatestExists(s: set<int>) returns (m: int)
    requires s != {}
    ensures IsGreatest(s, m)
    decreases |s|
  {
    m := AnyMember(s);
    if s - {m} != {} {
      var rest := GreatestExists(s - {m});
      assert forall x :: x in s ==> x == m || x in s - {m};
      if rest > m { m := rest; }
    } else {
      assert forall x :: x in s ==> x == m || x in s - {m};
    }
  }

  function Least(s: set<int>): (m: int)
    requires s != {}
    ensures IsLeast(s, m)
  {
    assert exists m :: IsLeast(s, m) by { var m := LeastExists(s); }
    var m :| m in s && IsLeast(s, m);
    m
  }

  function Greatest(s: set<int>): (m: int)
    requires s != {}
    ensures IsGreatest(s, m)
  {
    assert exists m :: IsGreatest(s, m) by { var m := GreatestExists(s); }
    var m :| m in s && IsGreatest(s, m);
    m
  }

  function Above(s: set<int>, k: int): set<int> { set x | x in s && k < x }

  function Below(s: set<int>, k: int): set<int> { set x | x in s && x < k }

  /** The next key, from the last one back to the first. */
  function Next(s: set<int>, k: int): int
    requires s != {}
  {
    if Above(s, k) != {} then Least(Above(s, k)) else Least(s)
  }

  /** The previous key, from the first one back to the last. */
  function Prev(s: set<int>, k: int): int
    requires s != {}
  {
    if Below(s, k) != {} then Greatest(Below(s, k)) else Greatest(s)
  }

  /** On two or more keys, `Next` moves and `Prev` undoes it. */
  lemma PrevOfNext(s: set<int>, k: int)
    requires k in s && |s| >= 2
    ensures Next(s, k) in s && Next(s, k) != k && Prev(s, Next(s, k)) == k
  {
    var n := Next(s, k);
    if Above(s, k) != {} {
      assert k in Below(s, n);
      assert forall x :: x in s && x > k ==> x in Above(s, k);
      assert IsGreatest(Below(s, n), k);
    } else {
      OtherKey(s, k);
      assert forall x :: x in s ==> x !in Above(s, k);
      assert Below(s, n) == {};
      assert IsGreatest(s, k);
    }
  }

  lemma NextOfPrev(s: set<int>, k: int)
    requires k in s && |s| >= 2
    ensures Prev(s, k) in s && Prev(s, k) != k && Next(s, Prev(s, k)) == k
  {
    var p := Prev(s, k);
    if Below(s, k) != {} {
      assert k in Above(s, p);
      assert forall x :: x in s && x < k ==> x in Below(s, k);
      assert IsLeast(Above(s, p), k);
    } else {
      OtherKey(s, k);
      assert forall x :: x in s ==> x !in Below(s, k);
      assert Above(s, p) == {};
      assert IsLeast(s, k);
    }
  }

  lemma OtherKey<T>(s: set<T>, k: T)
    requires k in s && |s| >= 2
    ensures exists x :: x in s && x != k
  {
    assert |s - {k}| >= 1;
    var x :| x in s - {k};
  }

  // ---------------------------------------------------------------- as a list

  function Ascending(s: set<int>): seq<int>
    decreases |s|
  {
    if s == {} then [] else [Least(s)] + Ascending(s - {Least(s)})
  }

  predicate StrictlyAscending(q: seq<int>) {
    forall i, j :: 0 <= i < j < |q| ==> q[i] < q[j]
  }

  lemma {:induction false} AscendingLists(s: set<int>)
    ensures |Ascending(s)| == |s| && StrictlyAscending(Ascending(s))
    ensures forall x :: x in Ascending(s) <==> x in s
    decreases |s|
  {
    if s != {} {
      var m := Least(s);
      var rest := Ascending(s - {m});
      AscendingLists(s - {m});
      assert forall x :: x in s <==> x == m || x in s - {m};
      assert forall j :: 0 <= j < |rest| ==> rest[j] in s - {m};
    }
  }

  /** Ascending order fixes the list. */
  lemma {:induction false} AscendingUnique(q: seq<int>, s: set<int>)
    requires StrictlyAscending(q) && forall x :: x in q <==> x in s
    ensures q == Ascending(s)
    decreases |q|
  {
    if q == [] {
      assert forall x :: x !in s;
      assert s == {};
    } else {
      assert q[0] in q && forall x :: x in q[1..] ==> x in q;
      assert IsLeast(s, q[0]) by {
        forall x | x in s ensures q[0] <= x { assert x in q; }
      }
      assert q == [q[0]] + q[1..];
      AscendingUnique(q[1..], s - {q[0]});
    }
  }

  lemma IndexOf(s: set<int>, x: int) returns (j: nat)
    requires x in s
    ensures j < |Ascending(s)| && Ascending(s)[j] == x
  {
    AscendingLists(s);
    assert x in Ascending(s);
    j :| 0 <= j < |Ascending(s)| && Ascending(s)[j] == x;
  }

  lemma Before(s: set<int>, i: nat, j: nat)
    requires i < |Ascending(s)| && j < |Ascending(s)|
    ensures Ascending(s)[i] < Ascending(s)[j] <==> i < j
    ensures Ascending(s)[i] in s && Ascending(s)[j] in s
  {
    AscendingLists(s);
    assert Ascending(s)[i] in Ascending(s) && Ascending(s)[j] in Ascending(s);
  }

  function Picked<V>(m: map<int, V>, keys: seq<int>): seq<V>
    requires forall i :: 0 <= i < |keys| ==> keys[i] in m
  {
    if keys == [] then [] else [m[keys[0]]] + Picked(m, keys[1..])
  }

  lemma KeysAreThere<V>(m: map<int, V>)
    ensures forall i :: 0 <= i < |Ascending(m.Keys)| ==> Ascending(m.Keys)[i] in m
  {
    AscendingLists(m.Keys);
    forall i | 0 <= i < |Ascending(m.Keys)| ensures Ascending(m.Keys)[i] in m {
      assert Ascending(m.Keys)[i] in Ascending(m.Keys);
    }
  }

  /** The values of an ordered map, by ascending key. */
  function Values<V>(m: map<int, V>): seq<V> {
    KeysAreThere(m);
    Picked(m, Ascending(m.Keys))
  }

  lemma {:induction false} PickedAt<V>(m: map<int, V>, keys: seq<int>)
    requires forall i :: 0 <= i < |keys| ==> keys[i] in m
    ensures |Picked(m, keys)| == |keys|
    ensures forall i :: 0 <= i < |keys| ==> Picked(m, keys)[i] == m[keys[i]]
  {
    if keys != [] {
      PickedAt(m, keys[1..]);
    }
  }

  lemma ValuesList<V>(m: map<int, V>)
    ensures |Ascending(m.Keys)| == |Values(m)| == |m.Keys|
    ensures forall i :: 0 <= i < |m.Keys| ==> Ascending(m.Keys)[i] in m && Values(m)[i] == m[Ascending(m.Keys)[i]]
    ensures forall v :: v in Values(m) <==> v in m.Values
  {
    AscendingLists(m.Keys);
    KeysAreThere(m);
    PickedAt(m, Ascending(m.Keys));
    forall v | v in m.Values ensures v in Values(m) {
      var x := KeyFor(m, v);
      var i := IndexOf(m.Keys, x);
      assert Values(m)[i] == v;
    }
  }

  // ---------------------------------------------------------------- as a cycle

  function Wrapped(i: nat, n: nat): nat { if i < n then i else i - n }

  /** Stepping along the cycle is stepping along the list, from its end back to its start. */
  lemma NextInList(s: set<int>, i: nat)
    requires i < |Ascending(s)| && s != {}
    ensures Wrapped(i + 1, |Ascending(s)|) < |Ascending(s)|
    ensures Next(s, Ascending(s)[i]) == Ascending(s)[Wrapped(i + 1, |Ascending(s)|)]
  {
    var q := Ascending(s);
    if i + 1 < |q| {
      Before(s, i, i + 1);
      forall x | x in Above(s, q[i]) ensures q[i + 1] <= x {
        var j := IndexOf(s, x);
        Before(s, i, j);
        Before(s, j, i + 1);
      }
      assert IsLeast(Above(s, q[i]), q[i + 1]);
    } else {
      forall x | x in s ensures x <= q[i] {
        var j := IndexOf(s, x);
        Before(s, i, j);
      }
      assert Above(s, q[i]) == {};
    }
  }

  /** `n` steps along the cycle. */
  function Walk(s: set<int>, k: int, n: nat): int
    requires s != {}
  {
    if n == 0 then k else Next(s, Walk(s, k, n - 1))
  }

  lemma {:induction false} WalkInList(s: set<int>, i: nat, n: nat)
    requires i < |Ascending(s)| && n <= |Ascending(s)| && s != {}
    ensures Wrapped(i + n, |Ascending(s)|) < |Ascending(s)|
    ensures Walk(s, Ascending(s)[i], n) == Ascending(s)[Wrapped(i + n, |Ascending(s)|)]
  {
    if n > 0 {
      WalkInList(s, i, n - 1);
      NextInList(s, Wrapped(i + (n - 1), |Ascending(s)|));
    }
  }

  /** One cycle: |s| steps from any key return to it ... */
  lemma WalkReturns(s: set<int>, k: int)
    requires k in s
    ensures Walk(s, k, |s|) == k
  {
    AscendingLists(s);
    var i := IndexOf(s, k);
    WalkInList(s, i, |s|);
  }

  /** ... and reach every key, each at one step count below |s|. */
  lemma WalkReaches(s: set<int>, k: int, x: int) returns (n: nat)
    requires k in s && x in s
    ensures n < |s| && Walk(s, k, n) == x
    ensures forall m: nat :: m < |s| && Walk(s, k, m) == x ==> m == n
  {
    AscendingLists(s);
    var i := IndexOf(s, k);
    var j := IndexOf(s, x);
    n := if j >= i then j - i else j - i + |s|;
    WalkInList(s, i, n);
    forall m: nat | m < |s| && Walk(s, k, m) == x ensures m == n {
      WalkInList(s, i, m);
      Before(s, Wrapped(i + m, |s|), j);
      Before(s, j, Wrapped(i + m, |s|));
    }
  }

  // ---------------------------------------------------------------- adding and removing a key

  /** The key below `e`: the only old key whose successor (short of the wrap) `e` becomes. */
  predicate JustBelow(s: set<int>, k: int, e: int) { Below(s, e) != {} && Greatest(Below(s, e)) == k }

  lemma NextAfterAdd(s: set<int>, k: int, e: int)
    requires k in s && e !in s && !JustBelow(s + {e}, k, e)
    ensures Above(s + {e}, k) != {} ==> Above(s, k) != {} && Next(s + {e}, k) == Next(s, k)
    ensures Above(s + {e}, k) == {} ==> Above(s, k) == {}
    ensures Above(s + {e}, k) == {} ==> (Next(s + {e}, k) == Next(s, k) <==> Below(s + {e}, e) != {})
  {
    var t := s + {e};
    if Above(t, k) != {} {
      var n := Least(Above(t, k));
      assert forall x :: x in Below(t, e) && x > k ==> x in Above(t, k);
      assert n == e ==> k in Below(t, e) && IsGreatest(Below(t, e), k);
      assert n in Above(s, k);
      assert forall x :: x in Above(s, k) ==> x in Above(t, k);
      assert IsLeast(Above(s, k), n);
    } else {
      assert forall x :: x in Above(s, k) ==> x in Above(t, k);
      if Below(t, e) != {} {
        var f := Least(t);
        assert f in s && IsLeast(s, f);
      } else {
        assert IsLeast(t, e);
      }
    }
  }

  lemma NextAfterDelete(s: set<int>, k: int, e: int)
    requires k in s && e in s && k != e && !JustBelow(s, k, e)
    ensures s - {e} != {}
    ensures Above(s - {e}, k) == {} <==> Above(s, k) == {}
    ensures Above(s, k) != {} ==> Next(s - {e}, k) == Next(s, k)
    ensures Above(s, k) == {} ==> (Next(s - {e}, k) == Next(s, k) <==> Below(s, e) != {})
  {
    var t := s - {e};
    assert k in t;
    assert forall x :: x in Above(t, k) ==> x in Above(s, k);
    if Above(s, k) != {} {
      var n := Least(Above(s, k));
      assert forall x :: x in Below(s, e) && x > k ==> x in Above(s, k);
      assert n == e ==> k in Below(s, e) && IsGreatest(Below(s, e), k);
      assert n in Above(t, k);
      assert IsLeast(Above(t, k), n);
    } else if Below(s, e) != {} {
      var f := Least(s);
      assert f in t && IsLeast(t, f);
    } else {
      assert forall x :: x in s && x < e ==> x in Below(s, e);
      assert IsLeast(s, e);
    }
  }
}
