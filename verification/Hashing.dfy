/** Ring keys and configuration ids (view_hash.rs), over an uninterpreted 64-bit hash `xx`. */
module Hashing {
  import opened Types

  const WORD: int := 0x1_0000_0000_0000_0000
  type u64 = x: int | 0 <= x < 0x1_0000_0000_0000_0000
  type i64 = x: int | -0x8000_0000_0000_0000 <= x < 0x8000_0000_0000_0000

  /** xxh64: the bytes and the seed. */
  type Hash64 = (seq<byte>, nat) -> u64

  /** `pb::NodeId`; it is its own `NodeIdKey`. */
  datatype NodeId = NodeId(high: i64, low: i64)

  /** `v as i64`. */
  function Signed(v: u64): i64 { if v < 0x8000_0000_0000_0000 then v else v - WORD }

  /** The `n` little-endian two's-complement bytes of `v`. */
  function LittleEndian(v: int, n: nat): seq<byte>
    decreases n
  {
    if n == 0 then [] else [(v % 256) as byte] + LittleEndian((v - v % 256) / 256, n - 1)
  }

  function HashInt(xx: Hash64, seed: nat, v: int): u64 { xx(LittleEndian(v, 4), seed) }

  function HashLong(xx: Hash64, seed: nat, v: i64): u64 { xx(LittleEndian(v, 8), seed) }

  /** `address_hash`. */
  function AddressHash(xx: Hash64, seed: nat, e: Endpoint): u64 {
    (xx(e.hostname, seed) * 31 + HashInt(xx, seed, e.port)) % WORD
  }

  /** The words of a list, those of one element after those of another. */
  function Words<T>(one: T -> seq<u64>, q: seq<T>): seq<u64> {
    if q == [] then [] else Words(one, q[..|q| - 1]) + one(q[|q| - 1])
  }

  function OfId(xx: Hash64): NodeId -> seq<u64> {
    (id: NodeId) => [HashLong(xx, 0, id.high), HashLong(xx, 0, id.low)]
  }

  function OfEndpoint(xx: Hash64): Endpoint -> seq<u64> {
    (e: Endpoint) => [xx(e.hostname, 0), HashInt(xx, 0, e.port)]
  }

  function IdWords(xx: Hash64, ids: seq<NodeId>): seq<u64> { Words(OfId(xx), ids) }

  function EndpointWords(xx: Hash64, endpoints: seq<Endpoint>): seq<u64> { Words(OfEndpoint(xx), endpoints) }

  // ---------------------------------------------------------------- what is hashed

  function Pow256(n: nat): nat { if n == 0 then 1 else 256 * Pow256(n - 1) }

  lemma {:induction false} PowPositive(n: nat)
    ensures Pow256(n) > 0
  {
    if n > 0 {
      PowPositive(n - 1);
    }
  }

  function LowByte(v: int): byte { (v % 256) as byte }

  lemma FirstByte(v: int, n: nat)
    requires n > 0
    ensures LittleEndian(v, n) == [LowByte(v)] + LittleEndian(v / 256, n - 1)
  {
  }

  lemma {:induction false} ByteFor(x: nat) returns (b: byte)
    requires x < 256
    ensures b as int == x
    decreases x
  {
    b := 0;
    if x > 0 {
      var before := ByteFor(x - 1);
      NextByte(before);
      b := before + 1;
    }
  }

  lemma NextByte(b: byte)
    requires b as int < 255
    ensures (b + 1) as int == b as int + 1
  {
  }

  lemma ByteHolds(x: nat)
    requires x < 256
    ensures (x as byte) as int == x
  {
    var b := ByteFor(x);
  }

  /** Byte `i` of `v` is its digit of weight 256^i, for negative `v` too. */
  lemma {:induction false} LittleEndianAt(v: int, n: nat, i: nat)
    requires i < n
    ensures Pow256(i) > 0 && |LittleEndian(v, n)| == n && LittleEndian(v, n)[i] as int == (v / Pow256(i)) % 256
    decreases n
  {
    LittleEndianLength(v, n);
    PowPositive(i);
    FirstByte(v, n);
    if i == 0 {
      ByteHolds(v % 256);
    } else {
      LittleEndianAt(v / 256, n - 1, i - 1);
      DivideTwice(v, Pow256(i - 1));
    }
  }

  lemma {:induction false} LittleEndianLength(v: int, n: nat)
    ensures |LittleEndian(v, n)| == n
    decreases n
  {
    if n > 0 {
      LittleEndianLength((v - v % 256) / 256, n - 1);
    }
  }

  lemma DivideTwice(v: int, b: nat)
    requires b > 0
    ensures (v / 256) / b == v / (256 * b) && v % (256 * b) == 256 * ((v / 256) % b) + v % 256
  {
    var q, r := v / 256, v % 256;
    var p, s := q / b, q % b;
    assert q == p * b + s;
    MulSwap(p, b);
    QuotientIs(v, 256 * b, p, 256 * s + r);
  }

  lemma MulSwap(p: int, b: int)
    ensures 256 * (p * b) == p * (256 * b)
  {
  }

  lemma QuotientIs(v: int, d: nat, q: int, r: nat)
    requires d > 0 && r < d && v == q * d + r
    ensures v / d == q && v % d == r
  {
    var other, rest := v / d, v % d;
    assert v == other * d + rest;
    Difference(q, other, d);
    if q > other {
      AtLeastOnce(q - other, d);
    } else if other > q {
      AtLeastOnce(other - q, d);
    }
  }

  lemma Difference(a: int, b: int, d: int)
    ensures (a - b) * d == a * d - b * d && (b - a) * d == b * d - a * d
  {
  }

  lemma AtLeastOnce(x: nat, d: nat)
    requires x >= 1
    ensures x * d >= d
  {
    assert x * d == (x - 1) * d + d;
  }

  lemma SameFirst(v: int, w: int, n: nat)
    requires n > 0
    ensures LittleEndian(v, n) == LittleEndian(w, n)
            <==> v % 256 == w % 256 && LittleEndian(v / 256, n - 1) == LittleEndian(w / 256, n - 1)
  {
    FirstByte(v, n);
    FirstByte(w, n);
    ByteHolds(v % 256);
    ByteHolds(w % 256);
    HeadAndTail(LowByte(v), LittleEndian(v / 256, n - 1), LowByte(w), LittleEndian(w / 256, n - 1));
  }

  lemma HeadAndTail(a: byte, p: seq<byte>, b: byte, q: seq<byte>)
    ensures [a] + p == [b] + q <==> a == b && p == q
  {
    if [a] + p == [b] + q {
      assert ([a] + p)[0] == a && ([a] + p)[1..] == p;
      assert ([b] + q)[0] == b && ([b] + q)[1..] == q;
    }
  }

  /** The bytes written of two numbers are the same exactly when the numbers are, modulo 256^n. */
  lemma {:induction false} LittleEndianSame(v: int, w: int, n: nat)
    ensures Pow256(n) > 0
    ensures LittleEndian(v, n) == LittleEndian(w, n) <==> v % Pow256(n) == w % Pow256(n)
    decreases n
  {
    PowPositive(n);
    if n > 0 {
      LittleEndianSame(v / 256, w / 256, n - 1);
      SameFirst(v, w, n);
      DivideTwice(v, Pow256(n - 1));
      DivideTwice(w, Pow256(n - 1));
    }
  }

  /** A port is hashed as its four low bytes, lowest first. */
  lemma PortBytes(xx: Hash64, seed: nat, v: int)
    ensures HashInt(xx, seed, v)
            == xx([LowByte(v), LowByte(v / 256), LowByte(v / 256 / 256), LowByte(v / 256 / 256 / 256)], seed)
  {
    FirstByte(v, 4);
    FirstByte(v / 256, 3);
    FirstByte(v / 256 / 256, 2);
    FirstByte(v / 256 / 256 / 256, 1);
    NoBytes(v / 256 / 256 / 256 / 256);
    FourBytes(LowByte(v), LowByte(v / 256), LowByte(v / 256 / 256), LowByte(v / 256 / 256 / 256));
  }

  lemma NoBytes(v: int)
    ensures LittleEndian(v, 0) == []
  {
  }

  lemma FourBytes(a: byte, b: byte, c: byte, d: byte)
    ensures [a] + ([b] + ([c] + ([d] + []))) == [a, b, c, d]
  {
  }

  /** Half of an identifier is hashed as its eight bytes, lowest first, which say what number it is. */
  lemma HalfBytes(xx: Hash64, seed: nat, v: i64, w: i64)
    ensures |LittleEndian(v, 8)| == 8 && HashLong(xx, seed, v) == xx(LittleEndian(v, 8), seed)
    ensures LittleEndian(v, 8) == LittleEndian(w, 8) <==> v == w
  {
    LittleEndianLength(v, 8);
    LittleEndianSame(v, w, 8);
    EightBytes();
    SameResidue(v, w);
  }

  lemma EightBytes()
    ensures Pow256(8) == WORD
  {
    assert Pow256(2) == 0x1_0000 && Pow256(4) == 0x1_0000_0000 && Pow256(6) == 0x1_0000_0000_0000;
  }

  /** Endpoints on one host share a hash exactly when their ports do ... */
  lemma SameHost(xx: Hash64, seed: nat, e: Endpoint, f: Endpoint)
    requires e.hostname == f.hostname
    ensures AddressHash(xx, seed, e) == AddressHash(xx, seed, f)
            <==> HashInt(xx, seed, e.port) == HashInt(xx, seed, f.port)
  {
    var a: int := xx(e.hostname, seed) * 31;
    SameResidue(a + HashInt(xx, seed, e.port), a + HashInt(xx, seed, f.port));
  }

  /** ... and endpoints with one port exactly when their hosts do, since 31 is odd. */
  lemma SamePort(xx: Hash64, seed: nat, e: Endpoint, f: Endpoint)
    requires e.port == f.port
    ensures AddressHash(xx, seed, e) == AddressHash(xx, seed, f) <==> xx(e.hostname, seed) == xx(f.hostname, seed)
  {
    var a: int, b: int, p: int := xx(e.hostname, seed), xx(f.hostname, seed), HashInt(xx, seed, e.port);
    if AddressHash(xx, seed, e) == AddressHash(xx, seed, f) {
      OddFactor(a, b, p);
    }
  }

  lemma OddFactor(a: int, b: int, p: int)
    requires 0 <= a < WORD && 0 <= b < WORD && (a * 31 + p) % WORD == (b * 31 + p) % WORD
    ensures a == b
  {
    var m := (a * 31 + p) / WORD - (b * 31 + p) / WORD;
    assert 31 * (a - b) == WORD * m;
    assert -31 < m < 31;
  }

  /** Numbers less than a word apart are the same if they are the same modulo a word. */
  lemma SameResidue(x: int, y: int)
    requires -WORD < x - y < WORD
    ensures x % WORD == y % WORD <==> x == y
  {
  }

  /** The words of a list are those of its parts, in order ... */
  lemma {:induction false} WordsOfParts<T>(one: T -> seq<u64>, a: seq<T>, b: seq<T>)
    ensures Words(one, a + b) == Words(one, a) + Words(one, b)
    decreases |b|
  {
    if b == [] {
      assert a + b == a;
    } else {
      var front, last := b[..|b| - 1], b[|b| - 1];
      WordsOfParts(one, a, front);
      assert b == front + [last] && a + b == (a + front) + [last];
      WordsLast(one, a + front, last);
      WordsLast(one, front, last);
      Reassociate(Words(one, a), Words(one, front), one(last));
    }
  }

  lemma WordsLast<T>(one: T -> seq<u64>, front: seq<T>, last: T)
    ensures Words(one, front + [last]) == Words(one, front) + one(last)
  {
    assert (front + [last])[..|front|] == front;
  }

  lemma Reassociate(a: seq<u64>, b: seq<u64>, c: seq<u64>)
    ensures (a + b) + c == a + (b + c)
  {
  }

  lemma WordsOfOne<T>(one: T -> seq<u64>, x: T)
    ensures Words(one, [x]) == one(x)
  {
    assert [x][..0] == [];
  }

  /** ... and of an identifier they are its high and low half, of an endpoint its host and port. */
  lemma IdWordsOfOne(xx: Hash64, id: NodeId)
    ensures IdWords(xx, [id]) == [HashLong(xx, 0, id.high), HashLong(xx, 0, id.low)]
  {
    WordsOfOne(OfId(xx), id);
  }

  lemma EndpointWordsOfOne(xx: Hash64, e: Endpoint)
    ensures EndpointWords(xx, [e]) == [xx(e.hostname, 0), HashInt(xx, 0, e.port)]
  {
    WordsOfOne(OfEndpoint(xx), e);
  }

  /** The exact value of the polynomial whose residue the configuration id is. */
  function Polynomial(words: seq<u64>): nat {
    if words == [] then 1 else Polynomial(words[..|words| - 1]) * 37 + words[|words| - 1]
  }

  function ConfigurationId(xx: Hash64, ids: seq<NodeId>, endpoints: seq<Endpoint>): i64 {
    Signed(Polynomial(IdWords(xx, ids) + EndpointWords(xx, endpoints)) % WORD)
  }

  /** `hash.wrapping_mul(37).wrapping_add(word)`. */
  function Absorb(hash: u64, word: u64): u64 { ((hash * 37) % WORD + word) % WORD }

  /** The accumulator after a list of words. */
  function Absorbed(words: seq<u64>): u64 {
    if words == [] then 1 else Absorb(Absorbed(words[..|words| - 1]), words[|words| - 1])
  }

  /** Wrapping at every step is wrapping once at the end. */
  lemma {:induction false} WrapAtTheEnd(words: seq<u64>)
    ensures Absorbed(words) == Polynomial(words) % WORD
  {
    if words != [] {
      WrapAtTheEnd(words[..|words| - 1]);
      WrapOnce(Polynomial(words[..|words| - 1]), words[|words| - 1]);
    }
  }

  lemma AbsorbsPair(words: seq<u64>, a: u64, b: u64)
    ensures Absorbed(words + [a, b]) == Absorb(Absorb(Absorbed(words), a), b)
  {
    assert (words + [a, b])[..|words| + 1] == words + [a];
    assert (words + [a])[..|words|] == words;
  }

  lemma WrapOnce(a: nat, word: u64)
    ensures Absorb(a % WORD, word) == (a * 37 + word) % WORD
  {
    var q, r := a / WORD, a % WORD;
    var p, s := (r * 37) / WORD, (r * 37) % WORD;
    assert a * 37 + word == (s + word) + (q * 37 + p) * WORD;
    DropWords(s + word, q * 37 + p);
  }

  lemma DropWords(x: nat, n: nat)
    ensures (x + n * WORD) % WORD == x % WORD
  {
  }

  lemma NextId(xx: Hash64, ids: seq<NodeId>, i: nat)
    requires i < |ids|
    ensures IdWords(xx, ids[..i + 1])
            == IdWords(xx, ids[..i]) + [HashLong(xx, 0, ids[i].high), HashLong(xx, 0, ids[i].low)]
  {
    assert ids[..i + 1][..i] == ids[..i];
  }

  lemma NextEndpoint(xx: Hash64, base: seq<u64>, endpoints: seq<Endpoint>, i: nat)
    requires i < |endpoints|
    ensures base + EndpointWords(xx, endpoints[..i + 1])
            == (base + EndpointWords(xx, endpoints[..i]))
               + [xx(endpoints[i].hostname, 0), HashInt(xx, 0, endpoints[i].port)]
  {
    assert endpoints[..i + 1][..i] == endpoints[..i];
  }

  /** `configuration_id_for`. */
  method ConfigurationIdFor(xx: Hash64, ids: seq<NodeId>, endpoints: seq<Endpoint>) returns (id: i64)
    ensures id == ConfigurationId(xx, ids, endpoints)
  {
    var hash: u64 := 1;
    for i := 0 to |ids|
      invariant hash == Absorbed(IdWords(xx, ids[..i]))
    {
      NextId(xx, ids, i);
      AbsorbsPair(IdWords(xx, ids[..i]), HashLong(xx, 0, ids[i].high), HashLong(xx, 0, ids[i].low));
      hash := Absorb(hash, HashLong(xx, 0, ids[i].high));
      hash := Absorb(hash, HashLong(xx, 0, ids[i].low));
    }
    assert ids[..|ids|] == ids;
    ghost var base := IdWords(xx, ids);
    assert base + EndpointWords(xx, []) == base;
    for i := 0 to |endpoints|
      invariant hash == Absorbed(base + EndpointWords(xx, endpoints[..i]))
    {
      NextEndpoint(xx, base, endpoints, i);
      AbsorbsPair(base + EndpointWords(xx, endpoints[..i]), xx(endpoints[i].hostname, 0),
                  HashInt(xx, 0, endpoints[i].port));
      hash := Absorb(hash, xx(endpoints[i].hostname, 0));
      hash := Absorb(hash, HashInt(xx, 0, endpoints[i].port));
    }
    assert endpoints[..|endpoints|] == endpoints;
    WrapAtTheEnd(base + EndpointWords(xx, endpoints));
    id := Signed(hash);
  }
}
