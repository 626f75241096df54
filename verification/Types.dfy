/** Values shared by every component: endpoints, ranks and optional fields. */
module Types {
  type byte = bv8

  datatype Option<+T> = None | Some(value: T)

  /** What a map holds for a key. */
  function Held<K, V>(m: map<K, V>, key: K): Option<V> { if key in m then Some(m[key]) else None }

  /** `pb::Endpoint`. Every `EndpointKey` of the source is the pair (hostname, port), so an
      endpoint is its own key here. */
  datatype Endpoint = Endpoint(hostname: seq<byte>, port: int)

  /** A proposal: the endpoints to toggle, in voting order. */
  type Proposal = seq<Endpoint>

  /** `pb::Rank`. Ranks are only compared, never computed with, so `int` loses nothing
      against the source's `i32`. */
  datatype Rank = Rank(round: int, nodeIndex: int)

  const ZERO_RANK := Rank(0, 0)
  const FAST_RANK := Rank(1, 1)

  /** `compare_ranks(a, b) == Less`: lexicographic on (round, nodeIndex). */
  predicate RankLess(a: Rank, b: Rank) {
    a.round < b.round || (a.round == b.round && a.nodeIndex < b.nodeIndex)
  }

  predicate RankAtMost(a: Rank, b: Rank) {
    a == b || RankLess(a, b)
  }
}
