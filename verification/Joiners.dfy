/** Callers parked until the view change that admits their endpoint (service/handlers.rs and
    `respond_to_joiners` of service/view_change.rs). */
module Joiners {
  import opened Types
  import VC = ViewChange

  /** One more caller waits for `e` to be admitted. */
  function Park(parked: map<Endpoint, seq<nat>>, e: Endpoint, token: nat): map<Endpoint, seq<nat>> {
    parked[e := (if e in parked then parked[e] else []) + [token]]
  }

  /** Every parked caller of an endpoint of the proposal, in order. */
  function Told(parked: map<Endpoint, seq<nat>>, proposal: Proposal): seq<nat>
    decreases |proposal|
  {
    if proposal == [] then []
    else (if proposal[0] in parked then parked[proposal[0]] else [])
         + Told(parked - {proposal[0]}, proposal[1..])
  }

  function Unparked(parked: map<Endpoint, seq<nat>>, proposal: Proposal): map<Endpoint, seq<nat>>
    decreases |proposal|
  {
    if proposal == [] then parked else Unparked(parked - {proposal[0]}, proposal[1..])
  }

  /** The places at which `token` is parked under an endpoint of `nodes`. */
  function Places(parked: map<Endpoint, seq<nat>>, nodes: set<Endpoint>, token: nat): set<(Endpoint, nat)> {
    set e, i | e in nodes && e in parked && 0 <= i < |parked[e]| && parked[e][i] == token :: (e, i)
  }

  /** Each token was told once for every place at which it was parked under an endpoint of the
      proposal, and exactly those endpoints are parked no more. */
  ghost predicate AllTold(before: map<Endpoint, seq<nat>>, proposal: Proposal, told: seq<nat>,
                          after: map<Endpoint, seq<nat>>) {
    && (forall token {:trigger multiset(told)[token]} ::
          multiset(told)[token] == |Places(before, VC.Elements(proposal), token)|)
    && after == before - VC.Elements(proposal)
  }

  lemma {:induction false} ToldIsAllTold(parked: map<Endpoint, seq<nat>>, proposal: Proposal)
    ensures AllTold(parked, proposal, Told(parked, proposal), Unparked(parked, proposal))
    decreases |proposal|
  {
    if proposal == [] {
      assert VC.Elements(proposal) == {} && parked - {} == parked;
      forall token ensures Places(parked, VC.Elements(proposal), token) == {} {
      }
    } else {
      var e, rest := proposal[0], proposal[1..];
      var here := if e in parked then parked[e] else [];
      ToldIsAllTold(parked - {e}, rest);
      assert VC.Elements(proposal) == {e} + VC.Elements(rest);
      forall token
        ensures multiset(Told(parked, proposal))[token] == |Places(parked, VC.Elements(proposal), token)|
      {
        PlacesFirst(parked, e, VC.Elements(rest), token);
        assert multiset(Told(parked, proposal)) == multiset(here) + multiset(Told(parked - {e}, rest));
      }
    }
  }

  /** The places under `e`, and those under the others. */
  lemma PlacesFirst(parked: map<Endpoint, seq<nat>>, e: Endpoint, rest: set<Endpoint>, token: nat)
    ensures |Places(parked, {e} + rest, token)|
            == multiset(if e in parked then parked[e] else [])[token] + |Places(parked - {e}, rest, token)|
  {
    var first, later := Places(parked, {e}, token), Places(parked - {e}, rest, token);
    assert Places(parked, {e} + rest, token) == first + later && first !! later;
    if e in parked {
      PlacesUnder(parked, e, token);
    } else {
      assert first == {};
    }
  }

  lemma PlacesUnder(parked: map<Endpoint, seq<nat>>, e: Endpoint, token: nat)
    requires e in parked
    ensures |Places(parked, {e}, token)| == multiset(parked[e])[token]
  {
    var at := Indices(parked[e], token);
    IndicesCounted(parked[e], token);
    Tagged(e, at);
    assert Places(parked, {e}, token) == Tag(e, at);
  }

  function Indices(q: seq<nat>, token: nat): set<nat> { set i: nat | i < |q| && q[i] == token }

  lemma {:induction false} IndicesCounted(q: seq<nat>, token: nat)
    ensures |Indices(q, token)| == multiset(q)[token]
  {
    if q != [] {
      var front, last := q[..|q| - 1], |q| - 1;
      IndicesCounted(front, token);
      assert q == front + [q[last]];
      assert Indices(q, token) == Indices(front, token) + if q[last] == token then {last} else {};
    }
  }

  function Tag(e: Endpoint, at: set<nat>): set<(Endpoint, nat)> { set i | i in at :: (e, i) }

  lemma {:induction false} Tagged(e: Endpoint, at: set<nat>)
    ensures |Tag(e, at)| == |at|
    decreases |at|
  {
    if at != {} {
      var i :| i in at;
      Tagged(e, at - {i});
      assert Tag(e, at) == Tag(e, at - {i}) + {(e, i)};
    }
  }
}
