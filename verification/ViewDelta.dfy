/** What a view change reports and what it leaves of each of its endpoints (service/view_change.rs),
    said of the whole proposal in terms of the state before it. */
module ViewDelta {
  import opened Types
  import opened Listings
  import opened KeyOrder
  import opened Hashing
  import opened ViewChange

  // ---------------------------------------------------------------- one endpoint

  /** What a state holds about one endpoint. */
  datatype Entry = Entry(member: bool, metadata: Option<Metadata>, uuid: Option<NodeId>, tags: Option<Metadata>)

  function About(s: Service, n: Endpoint): Entry {
    Entry(n in s.view.members, Held(s.metadata, n), Held(s.joinerUuid, n), Held(s.joinerMetadata, n))
  }

  lemma {:induction false} OthersUntouched(s: Service, proposal: Proposal, m: Endpoint)
    requires m !in proposal
    ensures About(Decide(s, proposal), m) == About(s, m)
    decreases |proposal|
  {
    if proposal != [] {
      OtherNode(s, proposal[0], m);
      OthersUntouched(DecideNode(s, proposal[0]), proposal[1..], m);
    }
  }

  lemma OtherNode(s: Service, n: Endpoint, m: Endpoint)
    requires m != n
    ensures About(DecideNode(s, n), m) == About(s, m)
  {
  }

  /** A member leaves with its metadata. A joiner without an identifier stays as it is; any other is
      forgotten, and if admitted it is a member, under its tags unless it has none or stale ones. */
  ghost predicate Settled(before: Entry, admitted: bool, after: Entry) {
    if before.member then after == before.(member := false, metadata := None)
    else if before.uuid.None? then after == before
    else
      && after.member == admitted && after.uuid.None? && after.tags.None?
      && (if admitted && before.metadata.None? && before.tags != Some(map[]) then after.metadata == before.tags
          else after.metadata == before.metadata)
  }

  lemma NodeSettles(t: Service, n: Endpoint)
    ensures Settled(About(t, n), Usable(t, n), About(DecideNode(t, n), n))
  {
  }

  /** Every endpoint of a duplicate-free proposal is settled, as known before any of them was. */
  lemma DecideSettles(s: Service, proposal: Proposal, k: nat)
    requires Distinct(proposal) && k < |proposal|
    ensures Settled(About(s, proposal[k]), Admits(s, proposal, k), About(Decide(s, proposal), proposal[k]))
  {
    var t, n, rest := Decide(s, proposal[..k]), proposal[k], proposal[k + 1..];
    DecideParts(s, proposal, k);
    assert proposal[k..][1..] == rest;
    assert n !in proposal[..k] && n !in rest;
    ReachesNode(s, proposal, k);
    NodeSettles(t, n);
    OthersUntouched(DecideNode(t, n), rest, n);
  }

  lemma {:induction false} DecideParts(s: Service, proposal: Proposal, k: nat)
    requires k <= |proposal|
    ensures Decide(s, proposal) == Decide(Decide(s, proposal[..k]), proposal[k..])
    decreases k
  {
    if k == 0 {
      assert proposal[0..] == proposal;
    } else {
      DecideParts(DecideNode(s, proposal[0]), proposal[1..], k - 1);
      assert proposal[1..][k - 1..] == proposal[k..] && proposal[..k][1..] == proposal[1..][..k - 1];
    }
  }

  /** When its turn comes, an endpoint is as it was, and is admitted if `Admits` says so. */
  lemma ReachesNode(s: Service, proposal: Proposal, k: nat)
    requires Distinct(proposal) && k < |proposal|
    ensures var t := Decide(s, proposal[..k]);
            About(t, proposal[k]) == About(s, proposal[k]) && (Usable(t, proposal[k]) <==> Admits(s, proposal, k))
  {
    DecideAdmits(s, proposal[..k]);
    OthersUntouched(s, proposal[..k], proposal[k]);
    UsableThen(s, Decide(s, proposal[..k]), proposal, k);
  }

  lemma UsableThen(s: Service, t: Service, proposal: Proposal, k: nat)
    requires k < |proposal| && About(t, proposal[k]) == About(s, proposal[k])
    requires t.view.identifiers == s.view.identifiers + Brought(s, proposal[..k])
    ensures Usable(t, proposal[k]) <==> Admits(s, proposal, k)
  {
    var n := proposal[k];
    assert Held(t.joinerUuid, n) == Held(s.joinerUuid, n);
  }

  // ---------------------------------------------------------------- the delta

  /** `meta` is what `m` holds for `n`, and empty if it holds nothing. */
  predicate Gives(m: map<Endpoint, Metadata>, n: Endpoint, meta: Metadata) {
    if n in m then meta == m[n] else meta == map[]
  }

  /** The k-th endpoint changes sides. */
  predicate Changes(s: Service, proposal: Proposal, k: nat)
    requires k < |proposal|
  {
    proposal[k] in s.view.members || Admits(s, proposal, k)
  }

  /** The change tells of the k-th endpoint: down, with its metadata, if it was a member, and up, with
      the tags it brought, if not. */
  predicate TellsOf(s: Service, proposal: Proposal, k: nat, c: StatusChange)
    requires k < |proposal|
  {
    && c.endpoint == proposal[k] && (c.up <==> proposal[k] !in s.view.members)
    && Gives(if c.up then s.joinerMetadata else s.metadata, proposal[k], c.metadata)
  }

  /** The delta tells of the endpoints at the positions `at`: all that change sides, in order. */
  ghost predicate ToldAt(s: Service, proposal: Proposal, delta: seq<StatusChange>, at: seq<nat>) {
    && |at| == |delta| && StrictlyAscending(at)
    && (forall j :: 0 <= j < |at| ==> at[j] < |proposal| && TellsOf(s, proposal, at[j], delta[j]))
    && (forall k {:trigger Changes(s, proposal, k)} :: 0 <= k < |proposal| ==> (Changes(s, proposal, k) <==> k in at))
  }

  /** The delta of a view change tells of every endpoint that changed sides, once and in the order of the
      proposal, and of nothing else. */
  lemma {:induction false} DeltaExactly(s: Service, proposal: Proposal) returns (at: seq<nat>)
    requires Distinct(proposal)
    ensures ToldAt(s, proposal, Delta(s, proposal), at)
    decreases |proposal|
  {
    if proposal == [] {
      at := [];
    } else {
      var front, n := proposal[..|proposal| - 1], proposal[|proposal| - 1];
      at := DeltaExactly(s, front);
      DeltaLast(s, front, n);
      assert proposal == front + [n];
      ReachesNode(s, proposal, |front|);
      NodeTold(Decide(s, front), n);
      at := ToldMore(s, front, n, Delta(s, front), NodeChange(Decide(s, front), n), at);
    }
  }

  lemma {:induction false} DeltaLast(s: Service, front: Proposal, n: Endpoint)
    ensures Delta(s, front + [n]) == Delta(s, front) + NodeChange(Decide(s, front), n)
    decreases |front|
  {
    if front == [] {
      assert (front + [n])[1..] == [];
    } else {
      assert (front + [n])[1..] == front[1..] + [n];
      DeltaLast(DecideNode(s, front[0]), front[1..], n);
    }
  }

  lemma NodeTold(t: Service, n: Endpoint)
    ensures var change := NodeChange(t, n);
            if n in t.view.members || Usable(t, n) then
              && |change| == 1 && change[0].endpoint == n && (change[0].up <==> n !in t.view.members)
              && Gives(if change[0].up then t.joinerMetadata else t.metadata, n, change[0].metadata)
            else change == []
  {
  }

  lemma ToldMore(s: Service, front: Proposal, n: Endpoint, delta: seq<StatusChange>, change: seq<StatusChange>,
                 before: seq<nat>)
    returns (at: seq<nat>)
    requires ToldAt(s, front, delta, before)
    requires var p := front + [n];
             if Changes(s, p, |front|) then |change| == 1 && TellsOf(s, p, |front|, change[0]) else change == []
    ensures ToldAt(s, front + [n], delta + change, at)
  {
    var p := front + [n];
    at := before + if Changes(s, p, |front|) then [|front|] else [];
    forall k | 0 <= k < |front| ensures Changes(s, p, k) <==> Changes(s, front, k) {
      assert p[..k] == front[..k];
    }
    forall j | 0 <= j < |before| ensures TellsOf(s, p, before[j], (delta + change)[j]) {
      assert TellsOf(s, front, before[j], delta[j]);
    }
  }
}
