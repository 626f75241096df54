/** The shard directory derived from view changes (rapid-shard/src/lib.rs): which endpoints host
    which shard, folded from deltas, and equal to a rebuild from the member list. */
module ShardIndex {
  import opened Types
  import opened Listings
  import opened ViewChange
  import opened ShardTags

  // ---------------------------------------------------------------- the index

  datatype Index = Index(byShard: map<string, seq<Endpoint>>, byEndpoint: map<Endpoint, seq<string>>)

  const EMPTY := Index(map[], map[])

  /** `eps.retain(|e| e != ep)`. */
  function Without(q: seq<Endpoint>, e: Endpoint): seq<Endpoint> {
    if q == [] then [] else (if q[0] == e then [] else [q[0]]) + Without(q[1..], e)
  }

  /** One shard of `drop_endpoint_from_buckets`. */
  function DropOne(b: map<string, seq<Endpoint>>, shard: string, e: Endpoint): map<string, seq<Endpoint>> {
    if shard !in b then b
    else if Without(b[shard], e) == [] then b - {shard}
    else b[shard := Without(b[shard], e)]
  }

  function DropAll(b: map<string, seq<Endpoint>>, shards: seq<string>, e: Endpoint): map<string, seq<Endpoint>> {
    if shards == [] then b else DropAll(DropOne(b, shards[0], e), shards[1..], e)
  }

  function Shards(x: Index, e: Endpoint): seq<string> { if e in x.byEndpoint then x.byEndpoint[e] else [] }

  /** One shard of the `UP` branch of `apply_delta`. */
  function AddOne(b: map<string, seq<Endpoint>>, shard: string, e: Endpoint): map<string, seq<Endpoint>> {
    var bucket := if shard in b then b[shard] else [];
    b[shard := if e in bucket then bucket else bucket + [e]]
  }

  function AddAll(b: map<string, seq<Endpoint>>, shards: seq<string>, e: Endpoint): map<string, seq<Endpoint>>
    decreases |shards|
  {
    if shards == [] then b else AddAll(AddOne(b, shards[0], e), shards[1..], e)
  }

  function ApplyChange(r: Reading, x: Index, c: StatusChange): Index {
    var dropped := DropAll(x.byShard, Shards(x, c.endpoint), c.endpoint);
    if c.up then
      var shards := ParseShards(r, c.metadata);
      Index(AddAll(dropped, shards, c.endpoint), x.byEndpoint[c.endpoint := shards])
    else Index(dropped, x.byEndpoint - {c.endpoint})
  }

  /** `apply_delta`. */
  function ApplyDelta(r: Reading, x: Index, delta: seq<StatusChange>): Index
    decreases |delta|
  {
    if delta == [] then x else ApplyDelta(r, ApplyChange(r, x, delta[0]), delta[1..])
  }

  // ---------------------------------------------------------------- its invariant

  /** Buckets are neither empty nor repetitive. */
  predicate BucketsOk(b: map<string, seq<Endpoint>>) {
    forall s :: s in b ==> b[s] != [] && Distinct(b[s])
  }

  predicate Hosts(b: map<string, seq<Endpoint>>, s: string, e: Endpoint) { s in b && e in b[s] }

  /** The two directions of the index say the same. */
  ghost predicate Consistent(x: Index) {
    forall s, e {:trigger Hosts(x.byShard, s, e)} :: Hosts(x.byShard, s, e) <==> s in Shards(x, e)
  }

  ghost predicate IndexOk(x: Index) { BucketsOk(x.byShard) && Consistent(x) }

  lemma {:induction false} WithoutKeeps(q: seq<Endpoint>, e: Endpoint)
    ensures forall f :: f in Without(q, e) <==> f in q && f != e
    ensures Distinct(q) ==> Distinct(Without(q, e))
  {
    if q != [] {
      WithoutKeeps(q[1..], e);
      assert q == [q[0]] + q[1..];
      var rest := Without(q[1..], e);
      assert forall j :: 0 <= j < |rest| ==> rest[j] in rest;
    }
  }

  lemma DropOneHosts(b: map<string, seq<Endpoint>>, shard: string, e: Endpoint)
    requires BucketsOk(b)
    ensures BucketsOk(DropOne(b, shard, e))
    ensures forall s, f {:trigger Hosts(DropOne(b, shard, e), s, f)} ::
              Hosts(DropOne(b, shard, e), s, f) <==> Hosts(b, s, f) && !(s == shard && f == e)
  {
    if shard in b {
      WithoutKeeps(b[shard], e);
    }
  }

  lemma {:induction false} DropAllHosts(b: map<string, seq<Endpoint>>, shards: seq<string>, e: Endpoint)
    requires BucketsOk(b)
    ensures BucketsOk(DropAll(b, shards, e))
    ensures forall s, f {:trigger Hosts(DropAll(b, shards, e), s, f)} ::
              Hosts(DropAll(b, shards, e), s, f) <==> Hosts(b, s, f) && !(s in shards && f == e)
  {
    if shards != [] {
      DropOneHosts(b, shards[0], e);
      DropAllHosts(DropOne(b, shards[0], e), shards[1..], e);
    }
  }

  lemma AddOneHosts(b: map<string, seq<Endpoint>>, shard: string, e: Endpoint)
    requires BucketsOk(b)
    ensures BucketsOk(AddOne(b, shard, e))
    ensures forall s, f {:trigger Hosts(AddOne(b, shard, e), s, f)} ::
              Hosts(AddOne(b, shard, e), s, f) <==> Hosts(b, s, f) || (s == shard && f == e)
  {
  }

  lemma {:induction false} AddAllHosts(b: map<string, seq<Endpoint>>, shards: seq<string>, e: Endpoint)
    requires BucketsOk(b)
    ensures BucketsOk(AddAll(b, shards, e))
    ensures forall s, f {:trigger Hosts(AddAll(b, shards, e), s, f)} ::
              Hosts(AddAll(b, shards, e), s, f) <==> Hosts(b, s, f) || (s in shards && f == e)
    decreases |shards|
  {
    if shards != [] {
      AddOneHosts(b, shards[0], e);
      AddAllHosts(AddOne(b, shards[0], e), shards[1..], e);
    }
  }

  /** Every change keeps the index consistent and does to the reverse index what it says. */
  lemma ChangeKeeps(r: Reading, x: Index, c: StatusChange)
    requires IndexOk(x)
    ensures IndexOk(ApplyChange(r, x, c))
  {
    var e, y := c.endpoint, ApplyChange(r, x, c);
    var dropped := DropAll(x.byShard, Shards(x, e), e);
    DropAllHosts(x.byShard, Shards(x, e), e);
    if c.up {
      AddAllHosts(dropped, ParseShards(r, c.metadata), e);
    }
    forall s, f ensures Hosts(y.byShard, s, f) <==> s in Shards(y, f) {
      assert Hosts(x.byShard, s, f) <==> s in Shards(x, f);
      assert Hosts(dropped, s, f) <==> Hosts(x.byShard, s, f) && f != e;
    }
  }

  lemma {:induction false} DeltaKeeps(r: Reading, x: Index, delta: seq<StatusChange>)
    requires IndexOk(x)
    ensures IndexOk(ApplyDelta(r, x, delta))
    decreases |delta|
  {
    if delta != [] {
      ChangeKeeps(r, x, delta[0]);
      DeltaKeeps(r, ApplyChange(r, x, delta[0]), delta[1..]);
    }
  }

  /** The same buckets, each as a set. */
  ghost predicate SameBuckets(x: Index, y: Index) {
    && x.byShard.Keys == y.byShard.Keys
    && forall s :: s in x.byShard ==> forall e :: e in x.byShard[s] <==> e in y.byShard[s]
  }

  /** Consistent indices with the same reverse index have the same buckets. */
  lemma ReverseIndexDecides(x: Index, y: Index)
    requires IndexOk(x) && IndexOk(y) && x.byEndpoint == y.byEndpoint
    ensures SameBuckets(x, y)
  {
    forall s, e ensures Hosts(x.byShard, s, e) <==> Hosts(y.byShard, s, e) {
      assert Hosts(x.byShard, s, e) <==> s in Shards(x, e);
      assert Hosts(y.byShard, s, e) <==> s in Shards(y, e);
    }
    forall s | s in x.byShard ensures s in y.byShard {
      assert Hosts(x.byShard, s, x.byShard[s][0]) <==> Hosts(y.byShard, s, x.byShard[s][0]);
    }
    forall s | s in y.byShard ensures s in x.byShard {
      assert Hosts(x.byShard, s, y.byShard[s][0]) <==> Hosts(y.byShard, s, y.byShard[s][0]);
    }
    forall s, e | s in x.byShard ensures e in x.byShard[s] <==> e in y.byShard[s] {
      assert Hosts(x.byShard, s, e) <==> Hosts(y.byShard, s, e);
    }
  }

  // ---------------------------------------------------------------- snapshot and deltas

  /** The index of a service state: every member under the shards its metadata names. */
  ghost predicate Tracks(r: Reading, x: Index, s: Service) {
    && IndexOk(x) && x.byEndpoint.Keys == s.view.members
    && forall e :: e in s.view.members ==> x.byEndpoint[e] == ParseShards(r, Lookup(s.metadata, e))
  }

  lemma NodeTracks(r: Reading, x: Index, s: Service, n: Endpoint)
    requires Tracks(r, x, s) && MetadataOk(s)
    ensures Tracks(r, ApplyDelta(r, x, NodeChange(s, n)), DecideNode(s, n))
  {
    var change := NodeChange(s, n);
    if change == [] {
      assert DecideNode(s, n).view == s.view && DecideNode(s, n).metadata == s.metadata;
    } else {
      ChangeKeeps(r, x, change[0]);
      assert change[1..] == [];
      assert ApplyDelta(r, x, change) == ApplyChange(r, x, change[0]);
      NodeShows(s, n, change[0]);
      ChangeTracks(r, x, s, DecideNode(s, n), change[0]);
    }
  }

  /** The one change reported for `n` is the whole difference between the two states. */
  lemma NodeShows(s: Service, n: Endpoint, c: StatusChange)
    requires NodeChange(s, n) == [c] && MetadataOk(s)
    ensures c.endpoint == n
    ensures DecideNode(s, n).view.members == if c.up then s.view.members + {n} else s.view.members - {n}
    ensures c.up ==> Lookup(DecideNode(s, n).metadata, n) == c.metadata
    ensures forall m :: m != n ==> Lookup(DecideNode(s, n).metadata, m) == Lookup(s.metadata, m)
  {
    assert [c][0] == c;
  }

  lemma ChangeTracks(r: Reading, x: Index, s: Service, t: Service, c: StatusChange)
    requires Tracks(r, x, s) && IndexOk(ApplyChange(r, x, c))
    requires t.view.members == if c.up then s.view.members + {c.endpoint} else s.view.members - {c.endpoint}
    requires c.up ==> Lookup(t.metadata, c.endpoint) == c.metadata
    requires forall m :: m != c.endpoint ==> Lookup(t.metadata, m) == Lookup(s.metadata, m)
    ensures Tracks(r, ApplyChange(r, x, c), t)
  {
  }

  lemma {:induction false} DeltaConcat(r: Reading, x: Index, a: seq<StatusChange>, b: seq<StatusChange>)
    ensures ApplyDelta(r, x, a + b) == ApplyDelta(r, ApplyDelta(r, x, a), b)
    decreases |a|
  {
    if a == [] {
      assert a + b == b;
    } else {
      assert (a + b)[0] == a[0] && (a + b)[1..] == a[1..] + b;
      DeltaConcat(r, ApplyChange(r, x, a[0]), a[1..], b);
    }
  }

  /** Folding the delta of a view change takes the index of the old state to that of the new one. */
  lemma {:induction false} DecisionTracks(r: Reading, x: Index, s: Service, proposal: Proposal)
    requires Tracks(r, x, s) && MetadataOk(s)
    ensures Tracks(r, ApplyDelta(r, x, Delta(s, proposal)), Decide(s, proposal))
    decreases |proposal|
  {
    if proposal != [] {
      var n, rest := proposal[0], proposal[1..];
      NodeTracks(r, x, s, n);
      MetadataStaysOk(s, [n]);
      assert DecideNode(s, n) == Decide(s, [n]);
      DeltaConcat(r, x, NodeChange(s, n), Delta(DecideNode(s, n), rest));
      DecisionTracks(r, ApplyDelta(r, x, NodeChange(s, n)), DecideNode(s, n), rest);
    }
  }

  /** The delta of `full_resync` and of the initial view: every member as if it had just joined. */
  function Rebuild(members: seq<Endpoint>, metadata: map<Endpoint, Metadata>): seq<StatusChange> {
    if members == [] then []
    else [StatusChange(members[0], true, Lookup(metadata, members[0]))] + Rebuild(members[1..], metadata)
  }

  /** `y` is `x` with the members indexed under what their metadata announces. */
  ghost predicate Indexes(r: Reading, x: Index, members: seq<Endpoint>, metadata: map<Endpoint, Metadata>, y: Index) {
    && y.byEndpoint.Keys == x.byEndpoint.Keys + (set e | e in members)
    && forall e {:trigger y.byEndpoint[e]} :: e in y.byEndpoint ==>
         y.byEndpoint[e] == if e in members then ParseShards(r, Lookup(metadata, e)) else x.byEndpoint[e]
  }

  lemma IndexesHead(r: Reading, x: Index, x': Index, e: Endpoint, rest: seq<Endpoint>,
                    metadata: map<Endpoint, Metadata>, y: Index)
    requires x'.byEndpoint == x.byEndpoint[e := ParseShards(r, Lookup(metadata, e))]
    requires Indexes(r, x', rest, metadata, y)
    ensures Indexes(r, x, [e] + rest, metadata, y)
  {
    assert (set m | m in [e] + rest) == {e} + set m | m in rest;
  }

  lemma {:induction false} RebuildTracks(r: Reading, members: seq<Endpoint>, metadata: map<Endpoint, Metadata>,
                                         x: Index)
    requires IndexOk(x)
    ensures IndexOk(ApplyDelta(r, x, Rebuild(members, metadata)))
    ensures Indexes(r, x, members, metadata, ApplyDelta(r, x, Rebuild(members, metadata)))
    decreases |members|
  {
    if members != [] {
      var c := StatusChange(members[0], true, Lookup(metadata, members[0]));
      ChangeKeeps(r, x, c);
      assert Rebuild(members, metadata)[1..] == Rebuild(members[1..], metadata);
      RebuildTracks(r, members[1..], metadata, ApplyChange(r, x, c));
      assert members == [members[0]] + members[1..];
      IndexesHead(r, x, ApplyChange(r, x, c), members[0], members[1..], metadata,
                  ApplyDelta(r, x, Rebuild(members, metadata)));
    }
  }

  /** The deltas of a run of view changes, folded one by one. */
  function FoldRounds(r: Reading, x: Index, s: Service, rounds: seq<Round>): Index
    decreases |rounds|
  {
    if rounds == [] then x
    else
      var before, last := rounds[..|rounds| - 1], rounds[|rounds| - 1];
      ApplyDelta(r, FoldRounds(r, x, s, before), Delta(Informed(Replay(s, before), last), last.proposal))
  }

  lemma {:induction false} RunTracks(r: Reading, x: Index, s: Service, rounds: seq<Round>)
    requires Tracks(r, x, s) && MetadataOk(s)
    ensures Tracks(r, FoldRounds(r, x, s, rounds), Replay(s, rounds)) && MetadataOk(Replay(s, rounds))
    decreases |rounds|
  {
    if rounds != [] {
      var before, last := rounds[..|rounds| - 1], rounds[|rounds| - 1];
      RunTracks(r, x, s, before);
      var now := Informed(Replay(s, before), last);
      DecisionTracks(r, FoldRounds(r, x, s, before), now, last.proposal);
      MetadataStaysOk(now, last.proposal);
    }
  }

  /** Snapshot plus deltas equals resync: build the index from a member list once and fold every
      later delta, or rebuild it from the final member list; the reverse index is the same, and
      so is every bucket as a set. */
  lemma SnapshotPlusDeltas(r: Reading, s: Service, rounds: seq<Round>, first: seq<Endpoint>, last: seq<Endpoint>)
    requires MetadataOk(s)
    requires (set e | e in first) == s.view.members && (set e | e in last) == Replay(s, rounds).view.members
    ensures var folded := FoldRounds(r, ApplyDelta(r, EMPTY, Rebuild(first, s.metadata)), s, rounds);
            var rebuilt := ApplyDelta(r, EMPTY, Rebuild(last, Replay(s, rounds).metadata));
            folded.byEndpoint == rebuilt.byEndpoint && SameBuckets(folded, rebuilt) && IndexOk(folded)
  {
    RebuildFresh(r, s, first);
    RunTracks(r, ApplyDelta(r, EMPTY, Rebuild(first, s.metadata)), s, rounds);
    RebuildFresh(r, Replay(s, rounds), last);
    TracksDecides(r, FoldRounds(r, ApplyDelta(r, EMPTY, Rebuild(first, s.metadata)), s, rounds),
                  ApplyDelta(r, EMPTY, Rebuild(last, Replay(s, rounds).metadata)), Replay(s, rounds));
  }

  lemma RebuildFresh(r: Reading, s: Service, members: seq<Endpoint>)
    requires (set e | e in members) == s.view.members
    ensures Tracks(r, ApplyDelta(r, EMPTY, Rebuild(members, s.metadata)), s)
  {
    RebuildTracks(r, members, s.metadata, EMPTY);
  }

  lemma TracksDecides(r: Reading, x: Index, y: Index, s: Service)
    requires Tracks(r, x, s) && Tracks(r, y, s)
    ensures x.byEndpoint == y.byEndpoint && SameBuckets(x, y)
  {
    assert x.byEndpoint == y.byEndpoint;
    ReverseIndexDecides(x, y);
  }

  /** Without that assumption, a joiner is indexed rightly exactly when no stale metadata of it, put
      there before it was a member, names other shards than it announces: the source never
      overwrites metadata, but reports what was announced. */
  lemma JoinTracksIff(r: Reading, x: Index, s: Service, n: Endpoint)
    requires Tracks(r, x, s) && n !in s.view.members
    requires n in s.joinerUuid && s.joinerUuid[n] !in s.view.identifiers
    ensures Tracks(r, ApplyDelta(r, x, NodeChange(s, n)), DecideNode(s, n))
            <==> n !in s.metadata || ParseShards(r, s.metadata[n]) == ParseShards(r, JoinerTags(s, n))
  {
    var c, t := StatusChange(n, true, JoinerTags(s, n)), DecideNode(s, n);
    assert NodeChange(s, n) == [c];
    assert ApplyDelta(r, x, [c]) == ApplyChange(r, x, c) by { assert [c][1..] == []; }
    ChangeKeeps(r, x, c);
    var y := ApplyChange(r, x, c);
    assert y.byEndpoint[n] == ParseShards(r, c.metadata);
    assert n in s.metadata ==> Lookup(t.metadata, n) == s.metadata[n];
    assert n !in s.metadata ==> Lookup(t.metadata, n) == c.metadata;
    assert forall m :: m != n ==> Lookup(t.metadata, m) == Lookup(s.metadata, m);
  }

  // ---------------------------------------------------------------- directories of one configuration

  /** `s` and `t` announce the same shards of `e`. */
  ghost predicate AnnounceAlike(r: Reading, s: Service, t: Service, e: Endpoint) {
    forall shard :: shard in ParseShards(r, Lookup(s.metadata, e)) <==> shard in ParseShards(r, Lookup(t.metadata, e))
  }

  lemma TracksHosts(r: Reading, x: Index, s: Service, shard: string, e: Endpoint)
    requires Tracks(r, x, s)
    ensures Hosts(x.byShard, shard, e)
            <==> e in s.view.members && shard in ParseShards(r, Lookup(s.metadata, e))
  {
    assert Hosts(x.byShard, shard, e) <==> shard in Shards(x, e);
  }

  /** Indices of services with the same members have the same buckets, as sets, if and only if the
      services announce the same shards of every member. */
  lemma SameBucketsIff(r: Reading, x: Index, s: Service, y: Index, t: Service)
    requires Tracks(r, x, s) && Tracks(r, y, t) && s.view.members == t.view.members
    ensures SameBuckets(x, y) <==> forall e :: e in s.view.members ==> AnnounceAlike(r, s, t, e)
  {
    if SameBuckets(x, y) {
      forall e, shard | e in s.view.members
        ensures shard in ParseShards(r, Lookup(s.metadata, e)) <==> shard in ParseShards(r, Lookup(t.metadata, e))
      {
        TracksHosts(r, x, s, shard, e);
        TracksHosts(r, y, t, shard, e);
      }
    }
    if forall e :: e in s.view.members ==> AnnounceAlike(r, s, t, e) {
      forall shard, e ensures Hosts(x.byShard, shard, e) <==> Hosts(y.byShard, shard, e) {
        TracksHosts(r, x, s, shard, e);
        TracksHosts(r, y, t, shard, e);
        assert e in s.view.members ==> AnnounceAlike(r, s, t, e);
      }
      HostsDecide(x, y);
    }
  }

  /** Non-empty buckets are determined by who is in them. */
  lemma HostsDecide(x: Index, y: Index)
    requires IndexOk(x) && IndexOk(y)
    requires forall s, e {:trigger Hosts(x.byShard, s, e)} :: Hosts(x.byShard, s, e) <==> Hosts(y.byShard, s, e)
    ensures SameBuckets(x, y)
  {
    forall s | s in x.byShard ensures s in y.byShard {
      assert Hosts(x.byShard, s, x.byShard[s][0]);
    }
    forall s | s in y.byShard ensures s in x.byShard {
      assert Hosts(x.byShard, s, y.byShard[s][0]) <==> Hosts(y.byShard, s, y.byShard[s][0]);
    }
    forall s, e | s in x.byShard ensures e in x.byShard[s] <==> e in y.byShard[s] {
      assert Hosts(x.byShard, s, e) <==> Hosts(y.byShard, s, e);
    }
  }

  /** The two know the same identifiers and tags of the joiners of `proposal`. */
  predicate SameJoiners(a: Service, b: Service, proposal: Proposal) {
    && SameKnowledge(a.joinerUuid, b.joinerUuid, proposal)
    && forall n :: n in proposal ==> JoinerTags(a, n) == JoinerTags(b, n)
  }

  lemma SameNodeMetadata(a: Service, b: Service, n: Endpoint, rest: Proposal)
    requires a.view == b.view && a.metadata == b.metadata && SameJoiners(a, b, [n] + rest)
    ensures DecideNode(a, n).view == DecideNode(b, n).view && DecideNode(a, n).metadata == DecideNode(b, n).metadata
    ensures SameJoiners(DecideNode(a, n), DecideNode(b, n), rest)
  {
    SameNode(a, b, n, rest);
    assert n in [n] + rest && forall m :: m in rest ==> m in [n] + rest;
    OtherTags(a, n);
    OtherTags(b, n);
  }

  lemma OtherTags(s: Service, n: Endpoint)
    ensures forall m :: m != n ==> JoinerTags(DecideNode(s, n), m) == JoinerTags(s, m)
    ensures JoinerTags(DecideNode(s, n), n)
            == if n !in s.view.members && n in s.joinerUuid then map[] else JoinerTags(s, n)
  {
  }

  /** Equal views and metadata stay equal under a decision of whose joiners both know the same. */
  lemma {:induction false} SameDecisionMetadata(a: Service, b: Service, proposal: Proposal)
    requires a.view == b.view && a.metadata == b.metadata && SameJoiners(a, b, proposal)
    ensures Decide(a, proposal).view == Decide(b, proposal).view
    ensures Decide(a, proposal).metadata == Decide(b, proposal).metadata
    decreases |proposal|
  {
    if proposal != [] {
      var n, rest := proposal[0], proposal[1..];
      assert proposal == [n] + rest;
      SameNodeMetadata(a, b, n, rest);
      SameDecisionMetadata(DecideNode(a, n), DecideNode(b, n), rest);
    }
  }

  predicate SameRound(p: Round, q: Round) {
    p.proposal == q.proposal && SameKnowledge(p.uuids, q.uuids, p.proposal)
    && forall n :: n in p.proposal ==> Lookup(p.tags, n) == Lookup(q.tags, n)
  }

  lemma {:induction false} SameMetadata(a: Service, ra: seq<Round>, b: Service, rb: seq<Round>)
    requires a.view == b.view && a.metadata == b.metadata && |ra| == |rb|
    requires forall i :: 0 <= i < |ra| ==> SameRound(ra[i], rb[i])
    ensures Replay(a, ra).view == Replay(b, rb).view && Replay(a, ra).metadata == Replay(b, rb).metadata
    decreases |ra|
  {
    if ra != [] {
      var n := |ra| - 1;
      SameMetadata(a, ra[..n], b, rb[..n]);
      assert SameRound(ra[n], rb[n]);
      SameDecisionMetadata(Informed(Replay(a, ra[..n]), ra[n]), Informed(Replay(b, rb[..n]), rb[n]), ra[n].proposal);
    }
  }

  /** Directories at the same configuration: whatever member lists they were built from, and when,
      after the same decisions about joiners of whom both replicas knew the same they hold the same
      shards of every endpoint, and the same buckets as sets. */
  lemma DirectoriesAgree(r: Reading, x: Index, a: Service, ra: seq<Round>, y: Index, b: Service, rb: seq<Round>)
    requires Tracks(r, x, a) && Tracks(r, y, b) && MetadataOk(a) && MetadataOk(b)
    requires a.view == b.view && a.metadata == b.metadata && |ra| == |rb|
    requires forall i :: 0 <= i < |ra| ==> SameRound(ra[i], rb[i])
    ensures FoldRounds(r, x, a, ra).byEndpoint == FoldRounds(r, y, b, rb).byEndpoint
    ensures SameBuckets(FoldRounds(r, x, a, ra), FoldRounds(r, y, b, rb))
  {
    RunTracks(r, x, a, ra);
    RunTracks(r, y, b, rb);
    SameMetadata(a, ra, b, rb);
    TracksMetadata(r, FoldRounds(r, y, b, rb), Replay(b, rb), Replay(a, ra));
    TracksDecides(r, FoldRounds(r, x, a, ra), FoldRounds(r, y, b, rb), Replay(a, ra));
  }

  lemma TracksMetadata(r: Reading, x: Index, s: Service, t: Service)
    requires Tracks(r, x, s) && t.view == s.view && t.metadata == s.metadata
    ensures Tracks(r, x, t)
  {
  }

  /** But not as lists: two members that host the same shard are listed in the order in which the
      directory heard of them, so directories of one configuration can differ. */
  lemma BucketOrderDiffers(r: Reading, s: Service, e: Endpoint, f: Endpoint, shard: string)
    requires e != f && s.view.members == {e, f}
    requires ParseShards(r, Lookup(s.metadata, e)) == [shard] && ParseShards(r, Lookup(s.metadata, f)) == [shard]
    ensures var x, y := ApplyDelta(r, EMPTY, Rebuild([e, f], s.metadata)),
                        ApplyDelta(r, EMPTY, Rebuild([f, e], s.metadata));
            && Tracks(r, x, s) && Tracks(r, y, s)
            && x.byShard == map[shard := [e, f]] && y.byShard == map[shard := [f, e]]
  {
    assert (set m | m in [e, f]) == {e, f} && (set m | m in [f, e]) == {e, f};
    RebuildFresh(r, s, [e, f]);
    RebuildFresh(r, s, [f, e]);
    TwoInOrder(r, s.metadata, e, f, shard);
    TwoInOrder(r, s.metadata, f, e, shard);
  }

  lemma TwoInOrder(r: Reading, metadata: map<Endpoint, Metadata>, e: Endpoint, f: Endpoint, shard: string)
    requires e != f
    requires ParseShards(r, Lookup(metadata, e)) == [shard] && ParseShards(r, Lookup(metadata, f)) == [shard]
    ensures ApplyDelta(r, EMPTY, Rebuild([e, f], metadata)).byShard == map[shard := [e, f]]
  {
    var c, d := StatusChange(e, true, Lookup(metadata, e)), StatusChange(f, true, Lookup(metadata, f));
    assert [e, f][1..] == [f] && [f][1..] == [];
    assert Rebuild([f], metadata) == [d] && Rebuild([e, f], metadata) == [c, d];
    assert [c, d][1..] == [d] && [d][1..] == [];
    OneShard(r, EMPTY, c, shard);
    var x := ApplyChange(r, EMPTY, c);
    assert [] + [e] == [e] && [e] + [f] == [e, f] && f !in [e];
    assert x.byShard == map[shard := [e]] && f !in x.byEndpoint;
    OneShard(r, x, d, shard);
    var y := ApplyChange(r, x, d);
    assert ApplyDelta(r, y, []) == y;
    assert ApplyDelta(r, x, [d]) == y;
  }

  /** A newcomer with one shard. */
  lemma OneShard(r: Reading, x: Index, c: StatusChange, shard: string)
    requires c.up && ParseShards(r, c.metadata) == [shard] && c.endpoint !in x.byEndpoint
    ensures ApplyChange(r, x, c)
            == Index(AddOne(x.byShard, shard, c.endpoint), x.byEndpoint[c.endpoint := [shard]])
  {
    assert [shard][1..] == [];
    assert AddAll(x.byShard, [shard], c.endpoint) == AddAll(AddOne(x.byShard, shard, c.endpoint), [], c.endpoint);
  }

  // ---------------------------------------------------------------- the object

  /** `ShardIndex` with the reading of its directory. */
  class ShardDirectory {
    const reading: Reading
    var configurationId: int
    var byShard: map<string, seq<Endpoint>>
    var byEndpoint: map<Endpoint, seq<string>>

    function State(): Index
      reads this
    {
      Index(byShard, byEndpoint)
    }

    constructor (reading: Reading)
      ensures this.reading == reading && State() == EMPTY && configurationId == -1
    {
      this.reading := reading;
      configurationId, byShard, byEndpoint := -1, map[], map[];
    }

    /** The directory reflects the replica's state `s` in the configuration `id`. */
    ghost predicate Reflects(s: Service, id: int)
      reads this
    {
      Tracks(reading, State(), s) && configurationId == id
    }

    /** `build`: the member list of the initial event, folded into an empty index. */
    static method Build(reading: Reading, configurationId: int, members: seq<Endpoint>,
                        metadata: map<Endpoint, Metadata>, ghost s: Service)
      returns (d: ShardDirectory)
      requires (set e | e in members) == s.view.members && metadata == s.metadata
      ensures fresh(d) && d.reading == reading && d.Reflects(s, configurationId)
    {
      d := new ShardDirectory(reading);
      d.Resync(configurationId, members, metadata);
      RebuildFresh(reading, s, members);
    }

    /** The forwarder on a view change: its id, then its delta. What reflected a state reflects the
        state the decision led to. */
    method OnViewChange(configurationId: int, delta: seq<StatusChange>, ghost s: Service, ghost proposal: Proposal)
      modifies this`configurationId, this`byShard, this`byEndpoint
      ensures State() == ApplyDelta(reading, old(State()), delta) && this.configurationId == configurationId
      ensures old(Tracks(reading, State(), s)) && MetadataOk(s) && delta == Delta(s, proposal)
              ==> Reflects(Decide(s, proposal), configurationId)
    {
      this.configurationId := configurationId;
      ghost var before := State();
      Apply(delta);
      if Tracks(reading, before, s) && MetadataOk(s) && delta == Delta(s, proposal) {
        DecisionTracks(reading, before, s, proposal);
      }
    }

    /** Directories that reflect replicas with the same members have the same buckets, as sets, if and
        only if the replicas' metadata announces the same shards of every member. */
    lemma SameConfigurationIff(other: ShardDirectory, s: Service, t: Service, id: int)
      requires reading == other.reading && Reflects(s, id) && other.Reflects(t, id)
      requires s.view.members == t.view.members
      ensures SameBuckets(State(), other.State())
              <==> forall e :: e in s.view.members ==> AnnounceAlike(reading, s, t, e)
    {
      SameBucketsIff(reading, State(), s, other.State(), t);
    }

    /** `drop_endpoint_from_buckets`. */
    method DropEndpointFromBuckets(e: Endpoint)
      modifies this`byShard
      ensures byShard == DropAll(old(byShard), Shards(old(State()), e), e)
    {
      if e !in byEndpoint { return; }
      var shards := byEndpoint[e];
      for i := 0 to |shards|
        invariant DropAll(byShard, shards[i..], e) == DropAll(old(byShard), shards, e)
      {
        assert shards[i..][1..] == shards[i + 1..];
        if shards[i] in byShard {
          var kept := Without(byShard[shards[i]], e);
          assert byShard[shards[i] := kept] - {shards[i]} == byShard - {shards[i]};
          byShard := byShard[shards[i] := kept];
          if kept == [] { byShard := byShard - {shards[i]}; }
        }
      }
    }

    /** The loop over the shards an endpoint announces. */
    method AddToBuckets(shards: seq<string>, e: Endpoint)
      modifies this`byShard
      ensures byShard == AddAll(old(byShard), shards, e)
    {
      for i := 0 to |shards|
        invariant AddAll(byShard, shards[i..], e) == AddAll(old(byShard), shards, e)
      {
        assert shards[i..][1..] == shards[i + 1..];
        var bucket := if shards[i] in byShard then byShard[shards[i]] else [];
        if e !in bucket { bucket := bucket + [e]; }
        byShard := byShard[shards[i] := bucket];
      }
    }

    /** `apply_delta`. */
    method Apply(delta: seq<StatusChange>)
      modifies this`byShard, this`byEndpoint
      ensures State() == ApplyDelta(reading, old(State()), delta)
    {
      for i := 0 to |delta|
        invariant ApplyDelta(reading, State(), delta[i..]) == ApplyDelta(reading, old(State()), delta)
      {
        assert delta[i..][1..] == delta[i + 1..];
        DropEndpointFromBuckets(delta[i].endpoint);
        if delta[i].up {
          var shards := ParseShards(reading, delta[i].metadata);
          AddToBuckets(shards, delta[i].endpoint);
          byEndpoint := byEndpoint[delta[i].endpoint := shards];
        } else {
          byEndpoint := byEndpoint - {delta[i].endpoint};
        }
      }
    }

    /** What the forwarder does when it lagged: start over from a member list. */
    method Resync(configurationId: int, members: seq<Endpoint>, metadata: map<Endpoint, Metadata>)
      modifies this
      ensures State() == ApplyDelta(reading, EMPTY, Rebuild(members, metadata))
      ensures this.configurationId == configurationId && IndexOk(State())
    {
      byShard, byEndpoint := map[], map[];
      this.configurationId := configurationId;
      Apply(Rebuild(members, metadata));
      DeltaKeeps(reading, EMPTY, Rebuild(members, metadata));
    }

    /** `replicas_of`: exactly the endpoints indexed under `shard`, each once. */
    method ReplicasOf(shard: string) returns (q: seq<Endpoint>)
      requires IndexOk(State())
      ensures Distinct(q) && forall e :: e in q <==> shard in Shards(State(), e)
    {
      q := if shard in byShard then byShard[shard] else [];
      assert forall e :: Hosts(byShard, shard, e) <==> shard in Shards(State(), e);
    }
  }
}
