/** The observer cache of a membership view (view.rs:180-242). Evicting only the members just
    below an endpoint that comes or goes is enough on every ring that does not wrap there; this
    module says exactly what it leaves coherent. */
module ObserverCache {
  import opened Types
  import opened KeyOrder
  import opened RingOrder
  import opened Membership

  type Cache = map<Endpoint, seq<Endpoint>>

  /** On ring `i`, `m` has a larger element: its observer there is not found by wrapping. */
  predicate HasLarger(key: Keying, i: nat, s: set<Endpoint>, m: Endpoint) {
    Above(Keys(key, i, s), key(i, m)) != {}
  }

  predicate IsFirst(key: Keying, i: nat, s: set<Endpoint>, e: Endpoint) {
    Below(Keys(key, i, s), key(i, e)) == {}
  }

  /** `m` is the `lower` element of `e` on ring `i`. */
  predicate IsLower(key: Keying, i: nat, s: set<Endpoint>, m: Endpoint, e: Endpoint) {
    JustBelow(Keys(key, i, s), key(i, m), key(i, e))
  }

  /** One entry, on one ring, when the member has a larger element there. */
  predicate EntryOk(key: Keying, k: nat, s: set<Endpoint>, m: Endpoint, entry: seq<Endpoint>, i: nat)
    requires s != {} && i < k && CollisionFree(key, i, s)
  {
    HasLarger(key, i, s, m) ==> |entry| == k && entry[i] == Succ(key, i, s, m)
  }

  /** What every run keeps: entries belong to members and are right away from the wrap. */
  predicate CacheOk(key: Keying, k: nat, s: set<Endpoint>, cache: Cache)
    requires AllCollisionFree(key, k, s)
  {
    && cache.Keys <= s
    && (forall m :: m in cache ==> |cache[m]| == 0 || |cache[m]| == k)
    && forall m, i | m in cache && 0 <= i < k :: EntryOk(key, k, s, m, cache[m], i)
  }

  /** The members the source evicts when `e` comes to or leaves the members, `s` including `e`. */
  predicate Evicted(key: Keying, k: nat, s: set<Endpoint>, e: Endpoint, m: Endpoint) {
    exists i | 0 <= i < k :: IsLower(key, i, s, m, e)
  }

  /** `after` is `before` without the evicted members and without `e`. */
  predicate Survivors(key: Keying, k: nat, s: set<Endpoint>, e: Endpoint, before: Cache, after: Cache) {
    && (forall m :: m in after ==> m in before && after[m] == before[m] && m != e)
    && (forall m :: m in before ==> (m in after <==> m != e && !Evicted(key, k, s, e, m)))
  }

  // ---------------------------------------------------------------- one ring

  lemma KeysWith(key: Keying, i: nat, s: set<Endpoint>, e: Endpoint)
    ensures Keys(key, i, s + {e}) == Keys(key, i, s) + {key(i, e)}
  {
  }

  lemma KeysWithout(key: Keying, i: nat, s: set<Endpoint>, e: Endpoint)
    requires CollisionFree(key, i, s) && e in s
    ensures Keys(key, i, s - {e}) == Keys(key, i, s) - {key(i, e)}
  {
    Apart(key, i, s);
  }

  /** Equal keys name the same neighbour, though the member sets differ. */
  lemma SameNeighbour(key: Keying, i: nat, s: set<Endpoint>, t: set<Endpoint>, m: Endpoint)
    requires CollisionFree(key, i, s) && CollisionFree(key, i, t) && s != {} && t != {} && (s <= t || t <= s)
    ensures Keys(key, i, s) != {} && Keys(key, i, t) != {}
    ensures Succ(key, i, s, m) == Succ(key, i, t, m)
            <==> Next(Keys(key, i, s), key(i, m)) == Next(Keys(key, i, t), key(i, m))
  {
    NeighbourKeys(key, i, s, m);
    NeighbourKeys(key, i, t, m);
  }

  /** Adding `e` changes the observer of a member that is not its lower element exactly when the
      member is last and `e` is first. */
  lemma SuccAfterAdd(key: Keying, i: nat, s: set<Endpoint>, e: Endpoint, m: Endpoint)
    requires CollisionFree(key, i, s + {e}) && CollisionFree(key, i, s)
    requires m in s && e !in s && !IsLower(key, i, s + {e}, m, e)
    ensures HasLarger(key, i, s + {e}, m) <==> HasLarger(key, i, s, m)
    ensures Succ(key, i, s + {e}, m) == Succ(key, i, s, m)
            <==> HasLarger(key, i, s + {e}, m) || !IsFirst(key, i, s + {e}, e)
  {
    KeysWith(key, i, s, e);
    KeyIn(key, i, s, m);
    Apart(key, i, s + {e});
    assert key(i, e) !in Keys(key, i, s);
    NextAfterAdd(Keys(key, i, s), key(i, m), key(i, e));
    SameNeighbour(key, i, s, s + {e}, m);
    AboveGrows(Keys(key, i, s), key(i, e), key(i, m));
  }

  lemma KeyIn(key: Keying, i: nat, s: set<Endpoint>, m: Endpoint)
    requires m in s
    ensures key(i, m) in Keys(key, i, s)
  {
  }

  lemma AboveGrows(keys: set<int>, e: int, k: int)
    ensures Above(keys, k) != {} ==> Above(keys + {e}, k) != {}
  {
    if Above(keys, k) != {} {
      var x := SetFacts.AnyMember(Above(keys, k));
      assert x in Above(keys + {e}, k);
    }
  }

  lemma SuccAfterDelete(key: Keying, i: nat, s: set<Endpoint>, e: Endpoint, m: Endpoint)
    requires CollisionFree(key, i, s) && CollisionFree(key, i, s - {e})
    requires m in s && e in s && m != e && !IsLower(key, i, s, m, e)
    ensures m in s - {e}
    ensures HasLarger(key, i, s - {e}, m) <==> HasLarger(key, i, s, m)
    ensures Succ(key, i, s - {e}, m) == Succ(key, i, s, m)
            <==> HasLarger(key, i, s, m) || !IsFirst(key, i, s, e)
  {
    KeysWithout(key, i, s, e);
    KeyIn(key, i, s, m);
    KeyIn(key, i, s, e);
    assert key(i, m) != key(i, e);
    NextAfterDelete(Keys(key, i, s), key(i, m), key(i, e));
    SameNeighbour(key, i, s, s - {e}, m);
  }

  // ---------------------------------------------------------------- every run

  lemma NotEvicted(key: Keying, k: nat, s: set<Endpoint>, e: Endpoint, m: Endpoint, i: nat)
    requires !Evicted(key, k, s, e, m) && i < k
    ensures !IsLower(key, i, s, m, e)
  {
  }

  lemma CacheAfterAdd(key: Keying, k: nat, s: set<Endpoint>, e: Endpoint, before: Cache, after: Cache)
    requires AllCollisionFree(key, k, s) && AllCollisionFree(key, k, s + {e}) && e !in s
    requires CacheOk(key, k, s, before) && Survivors(key, k, s + {e}, e, before, after)
    ensures CacheOk(key, k, s + {e}, after)
  {
    forall m, i | m in after && 0 <= i < k ensures EntryOk(key, k, s + {e}, m, after[m], i) {
      NotEvicted(key, k, s + {e}, e, m, i);
      SuccAfterAdd(key, i, s, e, m);
      assert EntryOk(key, k, s, m, before[m], i);
    }
  }

  lemma CacheAfterDelete(key: Keying, k: nat, s: set<Endpoint>, e: Endpoint, before: Cache, after: Cache)
    requires AllCollisionFree(key, k, s) && AllCollisionFree(key, k, s - {e}) && e in s
    requires CacheOk(key, k, s, before) && Survivors(key, k, s, e, before, after)
    ensures CacheOk(key, k, s - {e}, after)
  {
    forall m, i | m in after && 0 <= i < k ensures s - {e} != {} && EntryOk(key, k, s - {e}, m, after[m], i) {
      NotEvicted(key, k, s, e, m, i);
      assert m in s - {e};
      SuccAfterDelete(key, i, s, e, m);
      assert EntryOk(key, k, s, m, before[m], i);
    }
  }

  /** A fresh entry is right on every ring. */
  lemma CacheAfterLookup(key: Keying, k: nat, s: set<Endpoint>, cache: Cache, m: Endpoint)
    requires AllCollisionFree(key, k, s) && CacheOk(key, k, s, cache) && m in s
    ensures CacheOk(key, k, s, cache[m := Observers(key, k, s, m)])
  {
    forall i | 0 <= i < k ensures EntryOk(key, k, s, m, Observers(key, k, s, m), i) {
      if |s| <= 1 {
        AloneHasNoLarger(key, i, s, m);
      }
    }
  }

  lemma AloneHasNoLarger(key: Keying, i: nat, s: set<Endpoint>, m: Endpoint)
    requires |s| <= 1 && m in s
    ensures !HasLarger(key, i, s, m)
  {
    assert |s - {m}| == 0;
    assert forall x :: x in s ==> x == m || x in s - {m};
  }

  // ---------------------------------------------------------------- exactly when it stays coherent

  /** Every entry is what a lookup would compute afresh. */
  predicate Coherent(key: Keying, k: nat, s: set<Endpoint>, cache: Cache)
    requires AllCollisionFree(key, k, s)
  {
    forall m :: m in cache ==> m in s && cache[m] == Observers(key, k, s, m)
  }

  /** `m` is last and `e` is first on some ring of `s`. */
  predicate WrapsBetween(key: Keying, k: nat, s: set<Endpoint>, m: Endpoint, e: Endpoint) {
    exists i | 0 <= i < k :: !HasLarger(key, i, s, m) && IsFirst(key, i, s, e)
  }

  /** A surviving entry for `m` is still right after an add iff no ring wraps from `m` to `e`. */
  lemma EntryAfterAdd(key: Keying, k: nat, s: set<Endpoint>, e: Endpoint, m: Endpoint)
    requires AllCollisionFree(key, k, s) && AllCollisionFree(key, k, s + {e})
    requires m in s && e !in s && 0 < k && !Evicted(key, k, s + {e}, e, m)
    ensures Observers(key, k, s + {e}, m) == Observers(key, k, s, m) <==> !WrapsBetween(key, k, s + {e}, m, e)
  {
    var t := s + {e};
    forall i | 0 <= i < k
      ensures Succ(key, i, t, m) == Succ(key, i, s, m) <==> HasLarger(key, i, t, m) || !IsFirst(key, i, t, e)
    {
      NotEvicted(key, k, t, e, m, i);
      SuccAfterAdd(key, i, s, e, m);
    }
    assert |t| == |s| + 1;
    if |s| == 1 {
      NotEvicted(key, k, t, e, m, 0);
      SuccAfterAdd(key, 0, s, e, m);
      AloneHasNoLarger(key, 0, s, m);
      PairWraps(key, 0, t, m, e);
    } else {
      WrapShows(key, k, s, t, m, e, t);
    }
  }

  /** Observer lists differ iff the rings wrap somewhere, given that each ring does. */
  lemma WrapShows(key: Keying, k: nat, s: set<Endpoint>, t: set<Endpoint>, m: Endpoint, e: Endpoint, all: set<Endpoint>)
    requires AllCollisionFree(key, k, s) && AllCollisionFree(key, k, t) && |s| > 1 && |t| > 1
    requires forall i {:trigger Succ(key, i, t, m)} | 0 <= i < k ::
      (Succ(key, i, t, m) == Succ(key, i, s, m) <==> HasLarger(key, i, all, m) || !IsFirst(key, i, all, e))
    ensures Observers(key, k, t, m) == Observers(key, k, s, m) <==> !WrapsBetween(key, k, all, m, e)
  {
    var wraps := set i | 0 <= i < k && !HasLarger(key, i, all, m) && IsFirst(key, i, all, e);
    if WrapsBetween(key, k, all, m, e) {
      var i :| 0 <= i < k && !HasLarger(key, i, all, m) && IsFirst(key, i, all, e);
      assert i in wraps;
    }
    assert (exists i :: i in wraps) ==> WrapsBetween(key, k, all, m, e);
    var a, b := Observers(key, k, t, m), Observers(key, k, s, m);
    forall i | 0 <= i < k ensures a[i] == b[i] <==> i !in wraps {
      assert a[i] == Succ(key, i, t, m);
    }
    SameLists(a, b, wraps);
  }

  lemma SameLists(a: seq<Endpoint>, b: seq<Endpoint>, differ: set<int>)
    requires |a| == |b| && forall i | 0 <= i < |a| :: a[i] == b[i] <==> i !in differ
    requires forall i :: i in differ ==> 0 <= i < |a|
    ensures a == b <==> !exists i :: i in differ
  {
    if i :| i in differ {
      assert a[i] != b[i];
    }
  }

  /** Of two members, if `m` has none larger then `e` is first. */
  lemma PairWraps(key: Keying, i: nat, t: set<Endpoint>, m: Endpoint, e: Endpoint)
    requires m in t && e in t && m != e && |t| == 2 && CollisionFree(key, i, t) && !HasLarger(key, i, t, m)
    ensures IsFirst(key, i, t, e)
  {
    assert |t - {m} - {e}| == 0;
    assert forall x :: x in t ==> x == m || x == e || x in t - {m} - {e};
    KeyIn(key, i, t, e);
    assert key(i, e) !in Above(Keys(key, i, t), key(i, m));
    assert key(i, e) <= key(i, m);
  }

  lemma EntryAfterDelete(key: Keying, k: nat, s: set<Endpoint>, e: Endpoint, m: Endpoint)
    requires AllCollisionFree(key, k, s) && AllCollisionFree(key, k, s - {e})
    requires m in s && e in s && m != e && 0 < k && !Evicted(key, k, s, e, m)
    ensures Observers(key, k, s - {e}, m) == Observers(key, k, s, m) <==> !WrapsBetween(key, k, s, m, e)
  {
    var t := s - {e};
    assert m in t && s == t + {e} && |s| == |t| + 1;
    forall i | 0 <= i < k
      ensures Succ(key, i, t, m) == Succ(key, i, s, m) <==> HasLarger(key, i, s, m) || !IsFirst(key, i, s, e)
    {
      NotEvicted(key, k, s, e, m, i);
      SuccAfterDelete(key, i, s, e, m);
    }
    if |t| == 1 {
      NotEvicted(key, k, s, e, m, 0);
      SuccAfterDelete(key, 0, s, e, m);
      AloneHasNoLarger(key, 0, t, m);
      PairWraps(key, 0, s, m, e);
    } else {
      WrapShows(key, k, s, t, m, e, s);
    }
  }

  /** After an add, a coherent cache is still coherent iff no survivor is last on a ring on which
      the newcomer is first. */
  lemma CoherentAfterAdd(key: Keying, k: nat, s: set<Endpoint>, e: Endpoint, before: Cache, after: Cache)
    requires AllCollisionFree(key, k, s) && AllCollisionFree(key, k, s + {e}) && e !in s && 0 < k
    requires Coherent(key, k, s, before) && Survivors(key, k, s + {e}, e, before, after)
    ensures Coherent(key, k, s + {e}, after) <==> forall m :: m in after ==> !WrapsBetween(key, k, s + {e}, m, e)
  {
    forall m | m in after
      ensures after[m] == Observers(key, k, s + {e}, m) <==> !WrapsBetween(key, k, s + {e}, m, e)
    {
      EntryAfterAdd(key, k, s, e, m);
    }
  }

  /** After a delete, likewise with the member that left. */
  lemma CoherentAfterDelete(key: Keying, k: nat, s: set<Endpoint>, e: Endpoint, before: Cache, after: Cache)
    requires AllCollisionFree(key, k, s) && AllCollisionFree(key, k, s - {e}) && e in s && 0 < k
    requires Coherent(key, k, s, before) && Survivors(key, k, s, e, before, after)
    ensures Coherent(key, k, s - {e}, after) <==> forall m :: m in after ==> !WrapsBetween(key, k, s, m, e)
  {
    forall m | m in after
      ensures after[m] == Observers(key, k, s - {e}, m) <==> !WrapsBetween(key, k, s, m, e)
    {
      EntryAfterDelete(key, k, s, e, m);
    }
  }

  /** Such a survivor exists: the only member was looked up, alone, and a newcomer hashes below it
      on every ring. Its cached observers stay empty although it now has one. */
  lemma StaleEntry(key: Keying, k: nat, m: Endpoint, e: Endpoint)
    requires 0 < k && m != e && forall i | 0 <= i < k :: key(i, e) < key(i, m)
    ensures AllCollisionFree(key, k, {m}) && AllCollisionFree(key, k, {m} + {e})
    ensures var before := map[m := Observers(key, k, {m}, m)];
            && Coherent(key, k, {m}, before) && Survivors(key, k, {m} + {e}, e, before, before)
            && before[m] == [] && Observers(key, k, {m} + {e}, m) == seq(k, _ => e)
  {
    forall i | 0 <= i < k ensures CollisionFree(key, i, {m}) && CollisionFree(key, i, {m} + {e}) {
      assert !Collide(key, i, m, e) && !Collide(key, i, e, m);
    }
    forall i | 0 <= i < k ensures !IsLower(key, i, {m} + {e}, m, e) && Succ(key, i, {m} + {e}, m) == e {
      NeighboursInvert(key, i, {m} + {e}, m);
    }
  }
}
