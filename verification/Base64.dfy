/** The base64 codec of the trace files (ndjson.rs), section 4 of RFC 4648, on bytes. */
module Base64 {
  import opened Types

  const PAD: byte := 61

  /** The alphabet as arithmetic: the character of a six-bit value ... */
  function Letter(v: byte): byte
    requires v < 64
  {
    if v < 26 then v + 65 else if v < 52 then v + 71 else if v < 62 then v - 4 else if v == 62 then 43 else 47
  }

  /** ... and the value of a character, 255 when it is not in the alphabet. */
  function Value(c: byte): byte {
    if 65 <= c <= 90 then c - 65 else if 97 <= c <= 122 then c - 71 else if 48 <= c <= 57 then c + 4
    else if c == 43 then 62 else if c == 47 then 63 else 255
  }

  lemma LetterValue(v: byte)
    requires v < 64
    ensures Value(Letter(v)) == v && Letter(v) != PAD && !IsSpace(Letter(v))
  {
  }

  lemma ValueLetter(c: byte)
    ensures Value(c) < 64 || Value(c) == 255
    ensures Value(c) < 64 ==> Letter(Value(c)) == c
  {
  }

  /** `is_ascii_whitespace`. */
  predicate IsSpace(c: byte) { c == 32 || c == 9 || c == 10 || c == 12 || c == 13 }

  // ---------------------------------------------------------------- three bytes, four values

  function V0(b0: byte): (v: byte)
    ensures v < 64
  {
    b0 >> 2
  }

  function V1(b0: byte, b1: byte): (v: byte)
    ensures v < 64
  {
    ((b0 & 0x03) << 4) | (b1 >> 4)
  }

  function V2(b1: byte, b2: byte): (v: byte)
    ensures v < 64
  {
    ((b1 & 0x0F) << 2) | (b2 >> 6)
  }

  function V3(b2: byte): (v: byte)
    ensures v < 64
  {
    b2 & 0x3F
  }

  function B0(v0: byte, v1: byte): byte { (v0 << 2) | (v1 >> 4) }
  function B1(v1: byte, v2: byte): byte { (v1 << 4) | (v2 >> 2) }
  function B2(v2: byte, v3: byte): byte { (v2 << 6) | v3 }

  lemma BytesBack(b0: byte, b1: byte, b2: byte)
    ensures V0(b0) < 64 && V1(b0, b1) < 64 && V2(b1, b2) < 64 && V3(b2) < 64
    ensures B0(V0(b0), V1(b0, b1)) == b0 && B1(V1(b0, b1), V2(b1, b2)) == b1 && B2(V2(b1, b2), V3(b2)) == b2
  {
  }

  /** The values are the digits to base 64 of the number whose digits to base 256 are the bytes. */
  lemma SameNumber(b0: byte, b1: byte, b2: byte)
    ensures ((b0 as bv24 << 16) | (b1 as bv24 << 8) | b2 as bv24)
            == ((V0(b0) as bv24 << 18) | (V1(b0, b1) as bv24 << 12) | (V2(b1, b2) as bv24 << 6) | V3(b2) as bv24)
  {
  }

  lemma ValuesBack(v0: byte, v1: byte, v2: byte, v3: byte)
    requires v0 < 64 && v1 < 64 && v2 < 64 && v3 < 64
    ensures V0(B0(v0, v1)) == v0 && V1(B0(v0, v1), B1(v1, v2)) == v1
    ensures V2(B1(v1, v2), B2(v2, v3)) == v2 && V3(B2(v2, v3)) == v3
    ensures V1(B0(v0, v1), 0) == v1 <==> v1 & 0x0F == 0
    ensures V2(B1(v1, v2), 0) == v2 <==> v2 & 0x03 == 0
  {
  }

  /** The lookup table the decoder builds from the alphabet. */
  method BuildTable() returns (table: array<byte>)
    ensures fresh(table) && table.Length == 256 && forall c: byte :: table[c as int] == Value(c)
  {
    table := new byte[256](_ => 255);
    var i: byte := 0;
    while i < 64
      invariant i <= 64
      invariant forall c: byte :: table[c as int] == if Value(c) < i then Value(c) else 255
      decreases 64 - i
    {
      LetterValue(i);
      forall c: byte ensures Value(c) == i <==> c == Letter(i) { ValueLetter(c); }
      table[Letter(i) as int] := i;
      i := i + 1;
    }
  }

  // ---------------------------------------------------------------- packing

  /** The first group of up to three bytes as six-bit values: two, three or four of them. */
  function PackGroup(b: seq<byte>): (v: seq<byte>)
    requires b != []
    ensures Sextets(v)
  {
    if |b| == 1 then [V0(b[0]), V1(b[0], 0)]
    else if |b| == 2 then [V0(b[0]), V1(b[0], b[1]), V2(b[1], 0)]
    else [V0(b[0]), V1(b[0], b[1]), V2(b[1], b[2]), V3(b[2])]
  }

  function Rest(b: seq<byte>): (r: seq<byte>)
    ensures b != [] ==> |r| < |b|
  {
    if |b| < 3 then [] else b[3..]
  }

  function Pack(b: seq<byte>): seq<byte>
    decreases |b|
  {
    if b == [] then [] else PackGroup(b) + Pack(Rest(b))
  }

  function Unpack(v: seq<byte>): seq<byte> {
    if |v| < 2 then []
    else if |v| == 2 then [B0(v[0], v[1])]
    else if |v| == 3 then [B0(v[0], v[1]), B1(v[1], v[2])]
    else [B0(v[0], v[1]), B1(v[1], v[2]), B2(v[2], v[3])] + Unpack(v[4..])
  }

  predicate Sextets(v: seq<byte>) { forall i :: 0 <= i < |v| ==> v[i] < 64 }

  lemma {:induction false} PackIsSextets(b: seq<byte>)
    ensures Sextets(Pack(b)) && |Pack(b)| % 4 != 1 && |Pack(b)| == (|b| * 8 + 5) / 6
    decreases |b|
  {
    if b != [] {
      PackIsSextets(Rest(b));
    }
  }

  lemma {:induction false} UnpackPack(b: seq<byte>)
    ensures Unpack(Pack(b)) == b
  {
    if |b| == 1 {
      BytesBack(b[0], 0, 0);
    } else if |b| == 2 {
      BytesBack(b[0], b[1], 0);
    } else if |b| > 2 {
      BytesBack(b[0], b[1], b[2]);
      assert Pack(b)[4..] == Pack(b[3..]);
      UnpackPack(b[3..]);
      assert b == [b[0], b[1], b[2]] + b[3..];
    }
  }

  /** The bits of the last value that reach no byte are zero. */
  predicate TrailingBitsZero(v: seq<byte>) {
    && (|v| % 4 == 2 ==> v[|v| - 1] & 0x0F == 0)
    && (|v| % 4 == 3 ==> v[|v| - 1] & 0x03 == 0)
  }

  lemma {:induction false} PackUnpackIff(v: seq<byte>)
    requires Sextets(v) && |v| % 4 != 1
    ensures Pack(Unpack(v)) == v <==> TrailingBitsZero(v)
  {
    if |v| == 2 {
      TwoValues(v);
    } else if |v| == 3 {
      ThreeValues(v);
    } else if |v| > 3 {
      PackUnpackIff(v[4..]);
      PackTail(v);
      TrailingTail(v);
    }
  }

  lemma PackTail(v: seq<byte>)
    requires Sextets(v) && |v| > 3
    ensures Pack(Unpack(v)) == v <==> Pack(Unpack(v[4..])) == v[4..]
  {
    PackStep(v);
    assert v == v[..4] + v[4..];
    SameTail(v[..4], Pack(Unpack(v[4..])), v[4..]);
  }

  lemma TrailingTail(v: seq<byte>)
    requires |v| > 3
    ensures TrailingBitsZero(v[4..]) <==> TrailingBitsZero(v)
  {
    assert |v[4..]| % 4 == |v| % 4;
    assert |v| > 4 ==> v[4..][|v[4..]| - 1] == v[|v| - 1];
  }

  lemma TwoValues(v: seq<byte>)
    requires Sextets(v) && |v| == 2
    ensures Pack(Unpack(v)) == v <==> v[1] & 0x0F == 0
  {
    ValuesBack(v[0], v[1], 0, 0);
    assert v == [v[0], v[1]];
  }

  lemma ThreeValues(v: seq<byte>)
    requires Sextets(v) && |v| == 3
    ensures Pack(Unpack(v)) == v <==> v[2] & 0x03 == 0
  {
    ValuesBack(v[0], v[1], v[2], 0);
    assert v == [v[0], v[1], v[2]];
  }

  lemma SameTail(a: seq<byte>, b: seq<byte>, c: seq<byte>)
    ensures a + b == a + c <==> b == c
  {
    assert (a + b)[|a|..] == b && (a + c)[|a|..] == c;
  }

  lemma {:induction false} UnpackLength(v: seq<byte>)
    requires |v| % 4 != 1
    ensures |Unpack(v)| == |v| * 6 / 8
  {
    if |v| > 3 {
      UnpackLength(v[4..]);
    }
  }

  lemma PackStep(v: seq<byte>)
    requires Sextets(v) && |v| > 3
    ensures Pack(Unpack(v)) == v[..4] + Pack(Unpack(v[4..]))
  {
    FourBack(v[0], v[1], v[2], v[3], Unpack(v[4..]));
    FirstFour(v);
  }

  lemma FirstFour(v: seq<byte>)
    requires |v| > 3
    ensures v[..4] == [v[0], v[1], v[2], v[3]]
    ensures Unpack(v) == [B0(v[0], v[1]), B1(v[1], v[2]), B2(v[2], v[3])] + Unpack(v[4..])
  {
  }

  lemma FourBack(v0: byte, v1: byte, v2: byte, v3: byte, u: seq<byte>)
    requires v0 < 64 && v1 < 64 && v2 < 64 && v3 < 64
    ensures Pack([B0(v0, v1), B1(v1, v2), B2(v2, v3)] + u) == [v0, v1, v2, v3] + Pack(u)
  {
    ValuesBack(v0, v1, v2, v3);
    PackOfThree(B0(v0, v1), B1(v1, v2), B2(v2, v3), u);
  }

  lemma PackOfThree(x: byte, y: byte, z: byte, u: seq<byte>)
    ensures Pack([x, y, z] + u) == [V0(x), V1(x, y), V2(y, z), V3(z)] + Pack(u)
  {
    assert Rest([x, y, z] + u) == u;
  }

  lemma UnpackConcat(a: seq<byte>, b: seq<byte>)
    requires |a| == 4
    ensures Unpack(a + b) == Unpack(a) + Unpack(b)
  {
    assert (a + b)[4..] == b && Unpack(a[4..]) == [];
  }

  // ---------------------------------------------------------------- the texts

  function Letters(v: seq<byte>): seq<byte>
    requires Sextets(v)
  {
    seq(|v|, i requires 0 <= i < |v| => Letter(v[i]))
  }

  function Values(q: seq<byte>): seq<byte> { seq(|q|, i requires 0 <= i < |q| => Value(q[i])) }

  /** Four characters for the first group, padded if it is short. */
  function Group(b: seq<byte>): seq<byte>
    requires b != []
  {
    var b1, b2 := if |b| > 1 then b[1] else 0, if |b| > 2 then b[2] else 0;
    [Letter(V0(b[0])), Letter(V1(b[0], b1)),
     if |b| > 1 then Letter(V2(b1, b2)) else PAD, if |b| > 2 then Letter(V3(b2)) else PAD]
  }

  /** `base64_encode`. */
  function Encode(b: seq<byte>): seq<byte>
    decreases |b|
  {
    if b == [] then [] else Group(b) + Encode(Rest(b))
  }

  /** What the decoder looks at: everything but white space and padding. */
  function Strip(s: seq<byte>): seq<byte> {
    if s == [] then [] else (if s[0] == PAD || IsSpace(s[0]) then [] else [s[0]]) + Strip(s[1..])
  }

  predicate AllLetters(q: seq<byte>) { forall i :: 0 <= i < |q| ==> Value(q[i]) != 255 }

  function DecodeStripped(q: seq<byte>): Option<seq<byte>> {
    if |q| % 4 == 1 || !AllLetters(q) then None else Some(Unpack(Values(q)))
  }

  /** `base64_decode`. */
  function Decode(s: seq<byte>): Option<seq<byte>> { DecodeStripped(Strip(s)) }

  lemma {:induction false} StripConcat(a: seq<byte>, b: seq<byte>)
    ensures Strip(a + b) == Strip(a) + Strip(b)
  {
    if a == [] {
      assert a + b == b;
    } else {
      assert (a + b)[1..] == a[1..] + b;
      StripConcat(a[1..], b);
    }
  }

  /** The encoding is the letters of the packed values, up to padding. */
  lemma {:induction false} EncodeIsPack(b: seq<byte>)
    ensures Sextets(Pack(b)) && Strip(Encode(b)) == Letters(Pack(b))
    decreases |b|
  {
    PackIsSextets(b);
    if b != [] {
      EncodeIsPack(Rest(b));
      StripConcat(Group(b), Encode(Rest(b)));
      GroupLetters(b);
      LettersConcat(PackGroup(b), Pack(Rest(b)));
    }
  }

  function Pads(n: nat): seq<byte> { seq(n, _ => PAD) }

  /** The padding exactly: at the end, as many characters as the last group lacks bytes. */
  lemma {:induction false} EncodePadded(b: seq<byte>)
    ensures Sextets(Pack(b)) && Encode(b) == Letters(Pack(b)) + Pads((3 - |b| % 3) % 3)
    decreases |b|
  {
    PackIsSextets(b);
    if b != [] {
      EncodePadded(Rest(b));
      LettersConcat(PackGroup(b), Pack(Rest(b)));
      GroupPadded(b);
      PaddedJoin(b, Letters(PackGroup(b)), Letters(Pack(Rest(b))));
    }
  }

  lemma GroupPadded(b: seq<byte>)
    requires b != []
    ensures Group(b) == Letters(PackGroup(b)) + Pads(if |b| < 3 then 3 - |b| else 0)
  {
  }

  lemma PaddedJoin(b: seq<byte>, first: seq<byte>, rest: seq<byte>)
    requires b != [] && (|b| < 3 ==> rest == [])
    ensures (first + Pads(if |b| < 3 then 3 - |b| else 0)) + (rest + Pads((3 - |Rest(b)| % 3) % 3))
            == (first + rest) + Pads((3 - |b| % 3) % 3)
  {
    assert |Rest(b)| == if |b| < 3 then 0 else |b| - 3;
  }

  lemma LettersConcat(a: seq<byte>, b: seq<byte>)
    requires Sextets(a) && Sextets(b)
    ensures Sextets(a + b) && Letters(a + b) == Letters(a) + Letters(b)
  {
  }

  /** Whole groups of four characters. */
  lemma {:induction false} EncodeLength(b: seq<byte>)
    ensures |Encode(b)| == (|b| + 2) / 3 * 4
    decreases |b|
  {
    if b != [] {
      EncodeLength(Rest(b));
      assert |Rest(b)| == if |b| < 3 then 0 else |b| - 3;
    }
  }

  lemma GroupLetters(b: seq<byte>)
    requires b != []
    ensures Strip(Group(b)) == Letters(PackGroup(b))
  {
    var v := PackGroup(b);
    var pads := if |v| == 2 then [PAD, PAD] else if |v| == 3 then [PAD] else [];
    assert Group(b) == Letters(v) + pads;
    StripConcat(Letters(v), pads);
    OnlyNoise(pads);
    StripLetters(v);
    assert Letters(v) + [] == Letters(v);
  }

  lemma {:induction false} StripLetters(v: seq<byte>)
    requires Sextets(v)
    ensures Strip(Letters(v)) == Letters(v)
  {
    if v != [] {
      LetterValue(v[0]);
      assert Letters(v)[1..] == Letters(v[1..]);
      StripLetters(v[1..]);
      assert Letters(v) == [Letter(v[0])] + Letters(v[1..]);
    }
  }

  lemma ValuesOfLetters(v: seq<byte>)
    requires Sextets(v)
    ensures Values(Letters(v)) == v && AllLetters(Letters(v))
  {
    forall i | 0 <= i < |v| ensures Value(Letter(v[i])) == v[i] {
      LetterValue(v[i]);
    }
  }

  /** Round trip: an encoding decodes to what was encoded, with white space and padding inserted
      or removed anywhere. */
  lemma RoundTrip(b: seq<byte>, t: seq<byte>)
    requires Strip(t) == Strip(Encode(b))
    ensures Decode(t) == Some(b)
  {
    EncodeIsPack(b);
    PackIsSextets(b);
    ValuesOfLetters(Pack(b));
    UnpackPack(b);
  }

  /** White space and padding anywhere change nothing. */
  lemma NoiseIsIgnored(a: seq<byte>, noise: seq<byte>, b: seq<byte>)
    requires forall i :: 0 <= i < |noise| ==> noise[i] == PAD || IsSpace(noise[i])
    ensures Decode(a + noise + b) == Decode(a + b)
  {
    OnlyNoise(noise);
    assert Strip(a) + [] == Strip(a);
    StripConcat(a + noise, b);
    StripConcat(a, noise);
    StripConcat(a, b);
  }

  lemma {:induction false} OnlyNoise(noise: seq<byte>)
    requires forall i :: 0 <= i < |noise| ==> noise[i] == PAD || IsSpace(noise[i])
    ensures Strip(noise) == []
  {
    if noise != [] {
      OnlyNoise(noise[1..]);
    }
  }

  /** The other direction: what decodes re-encodes to the same text, up to white space and padding,
      exactly when its unused trailing bits are zero. */
  lemma ReencodeIff(t: seq<byte>)
    requires Decode(t).Some?
    ensures Strip(Encode(Decode(t).value)) == Strip(t) <==> TrailingBitsZero(Values(Strip(t)))
    ensures |Decode(t).value| == |Strip(t)| * 6 / 8
  {
    var q := Strip(t);
    forall i | 0 <= i < |q| ensures Value(q[i]) < 64 && Letter(Value(q[i])) == q[i] { ValueLetter(q[i]); }
    PackUnpackIff(Values(q));
    UnpackLength(Values(q));
    EncodeIsPack(Decode(t).value);
    assert Letters(Values(q)) == q;
    ValuesOfLetters(Pack(Decode(t).value));
  }

  predicate Noise(c: byte) { c == PAD || IsSpace(c) }

  /** The places that hold neither white space nor padding. */
  function Marks(s: seq<byte>): set<nat> { set i | 0 <= i < |s| && !Noise(s[i]) }

  /** Stripping takes out white space and padding and leaves everything else. */
  lemma {:induction false} StripLeaves(s: seq<byte>)
    ensures forall c :: c in Strip(s) <==> c in s && !Noise(c)
    ensures |Strip(s)| == |Marks(s)|
    decreases |s|
  {
    if s != [] {
      var front, last := s[..|s| - 1], s[|s| - 1];
      StripLeaves(front);
      assert s == front + [last];
      StripConcat(front, [last]);
      StripOne(last);
      MarksLast(front, last);
    }
  }

  lemma StripOne(c: byte)
    ensures Strip([c]) == if Noise(c) then [] else [c]
  {
    assert [c][1..] == [];
  }

  lemma MarksLast(front: seq<byte>, last: byte)
    ensures Marks(front + [last]) == Marks(front) + if Noise(last) then {} else {|front|}
    ensures |Marks(front + [last])| == |Marks(front)| + if Noise(last) then 0 else 1
  {
    assert forall i :: 0 <= i < |front| ==> (front + [last])[i] == front[i];
    assert Marks(front + [last]) == Marks(front) + if Noise(last) then {} else {|front|};
  }

  ghost predicate InAlphabet(c: byte) { exists v: byte :: v < 64 && c == Letter(v) }

  lemma AlphabetHasValues(c: byte)
    ensures Value(c) != 255 <==> InAlphabet(c)
  {
    ValueLetter(c);
    if v: byte :| v < 64 && c == Letter(v) {
      LetterValue(v);
    }
  }

  /** A text decodes if and only if what is neither white space nor padding are letters of the alphabet,
      not one more than a multiple of four of them. */
  lemma DecodesIff(t: seq<byte>)
    ensures Decode(t).Some? <==> (forall c :: c in t && !Noise(c) ==> InAlphabet(c)) && |Marks(t)| % 4 != 1
  {
    var q := Strip(t);
    StripLeaves(t);
    forall c: byte ensures Value(c) != 255 <==> InAlphabet(c) {
      AlphabetHasValues(c);
    }
    assert AllLetters(q) <==> forall c :: c in q ==> Value(c) != 255;
  }

  // ---------------------------------------------------------------- the methods

  /** `base64_encode`. */
  method EncodeText(b: seq<byte>) returns (out: seq<byte>)
    ensures out == Encode(b)
  {
    out := [];
    var rest := b;
    while rest != []
      invariant out + Encode(rest) == Encode(b)
      decreases |rest|
    {
      var chunk := if |rest| < 3 then rest else rest[..3];
      var group := EncodeGroup(chunk);
      EncodeStep(out, rest);
      out := out + group;
      rest := rest[|chunk|..];
    }
  }

  lemma EncodeStep(out: seq<byte>, rest: seq<byte>)
    requires rest != []
    ensures out + Encode(rest) == (out + Group(rest)) + Encode(Rest(rest))
    ensures var chunk := if |rest| < 3 then rest else rest[..3];
            Group(chunk) == Group(rest) && rest[|chunk|..] == Rest(rest)
  {
    Associates(out, Group(rest), Encode(Rest(rest)));
    GroupOfChunk(rest);
  }

  lemma Associates(a: seq<byte>, b: seq<byte>, c: seq<byte>)
    ensures a + (b + c) == (a + b) + c
  {
  }

  lemma GroupOfChunk(rest: seq<byte>)
    requires rest != []
    ensures Group(if |rest| < 3 then rest else rest[..3]) == Group(rest)
  {
  }

  /** The body of the encoder's loop. */
  method EncodeGroup(chunk: seq<byte>) returns (group: seq<byte>)
    requires 1 <= |chunk| <= 3
    ensures group == Group(chunk)
  {
    var b0 := chunk[0];
    var b1 := if |chunk| > 1 then chunk[1] else 0;
    var b2 := if |chunk| > 2 then chunk[2] else 0;
    group := [Letter(V0(b0)), Letter(V1(b0, b1))];
    if |chunk| > 1 { group := group + [Letter(V2(b1, b2))]; } else { group := group + [PAD]; }
    if |chunk| > 2 { group := group + [Letter(V3(b2))]; } else { group := group + [PAD]; }
  }

  /** `base64_decode`, four characters at a time through a buffer that is reused. */
  method DecodeText(s: seq<byte>) returns (r: Option<seq<byte>>)
    ensures r == Decode(s)
  {
    var table := BuildTable();
    var bytes := Filtered(s);
    if |bytes| % 4 == 1 { return None; }
    var decoded: seq<byte> := [];
    var buf := new byte[4](_ => 0);
    PrependNothing(DecodeStripped(bytes));
    while bytes != []
      invariant |bytes| % 4 != 1
      invariant DecodeStripped(Strip(s)) == Prepended(decoded, DecodeStripped(bytes))
      invariant forall c: byte :: table[c as int] == Value(c)
      decreases |bytes|
    {
      var chunk := if |bytes| < 4 then bytes else bytes[..4];
      var later := bytes[|chunk|..];
      DecodeStep(decoded, bytes);
      var ok := Lookup(table, chunk, buf);
      if !ok { return None; }
      var group := Assemble(buf, |chunk|);
      assert buf[..|chunk|] == Values(chunk);
      decoded := decoded + group;
      bytes := later;
    }
    assert decoded + [] == decoded;
    r := Some(decoded);
  }

  /** The bytes of one group of `n` values in the buffer. */
  method Assemble(buf: array<byte>, n: nat) returns (group: seq<byte>)
    requires buf.Length == 4 && 2 <= n <= 4
    ensures group == Unpack(buf[..n])
  {
    group := [];
    if n >= 2 { group := group + [B0(buf[0], buf[1])]; }
    if n >= 3 { group := group + [B1(buf[1], buf[2])]; }
    if n >= 4 { group := group + [B2(buf[2], buf[3])]; }
  }

  /** Put decoded bytes in front of a result. */
  function Prepended(front: seq<byte>, r: Option<seq<byte>>): Option<seq<byte>> {
    if r.None? then None else Some(front + r.value)
  }

  lemma PrependNothing(r: Option<seq<byte>>)
    ensures Prepended([], r) == r
  {
    if r.Some? {
      assert [] + r.value == r.value;
    }
  }

  lemma PrependTwice(a: seq<byte>, b: seq<byte>, r: Option<seq<byte>>)
    ensures Prepended(a, Prepended(b, r)) == Prepended(a + b, r)
  {
    if r.Some? {
      assert a + (b + r.value) == (a + b) + r.value;
    }
  }

  lemma DecodeStep(decoded: seq<byte>, bytes: seq<byte>)
    requires bytes != [] && |bytes| % 4 != 1
    ensures var chunk := if |bytes| < 4 then bytes else bytes[..4];
            var later := bytes[|chunk|..];
            && |chunk| >= 2 && |later| % 4 != 1
            && Prepended(decoded, DecodeStripped(bytes))
               == if AllLetters(chunk) then Prepended(decoded + Unpack(Values(chunk)), DecodeStripped(later)) else None
  {
    var chunk := if |bytes| < 4 then bytes else bytes[..4];
    var later := bytes[|chunk|..];
    assert bytes == chunk + later;
    DecodeGroup(chunk, later);
    PrependTwice(decoded, Unpack(Values(chunk)), DecodeStripped(later));
  }

  /** A group decodes on its own. */
  lemma DecodeGroup(chunk: seq<byte>, later: seq<byte>)
    requires 2 <= |chunk| <= 4 && (|chunk| < 4 ==> later == []) && |chunk + later| % 4 != 1
    ensures DecodeStripped(chunk + later)
            == if AllLetters(chunk) then Prepended(Unpack(Values(chunk)), DecodeStripped(later)) else None
  {
    if |chunk| == 4 {
      assert |chunk + later| == 4 + |later|;
      DecodeWhole(chunk, later);
    } else {
      assert chunk + later == chunk;
      DecodeLast(chunk);
    }
  }

  lemma DecodeWhole(chunk: seq<byte>, later: seq<byte>)
    requires |chunk| == 4 && |later| % 4 != 1 && |chunk + later| % 4 != 1
    ensures DecodeStripped(chunk + later)
            == if AllLetters(chunk) then Prepended(Unpack(Values(chunk)), DecodeStripped(later)) else None
  {
    LettersOfConcat(chunk, later);
    if AllLetters(chunk) && AllLetters(later) {
      ValuesOfConcat(chunk, later);
      UnpackConcat(Values(chunk), Values(later));
    }
  }

  lemma DecodeLast(chunk: seq<byte>)
    requires 2 <= |chunk| < 4
    ensures DecodeStripped(chunk)
            == if AllLetters(chunk) then Prepended(Unpack(Values(chunk)), DecodeStripped([])) else None
  {
    assert Values([]) == [] && Unpack([]) == [];
    assert Unpack(Values(chunk)) + [] == Unpack(Values(chunk));
  }

  lemma LettersOfConcat(a: seq<byte>, b: seq<byte>)
    ensures AllLetters(a + b) <==> AllLetters(a) && AllLetters(b)
  {
    assert forall i :: 0 <= i < |a| ==> (a + b)[i] == a[i];
    assert forall i :: 0 <= i < |b| ==> (a + b)[|a| + i] == b[i];
  }

  lemma ValuesOfConcat(a: seq<byte>, b: seq<byte>)
    requires AllLetters(a) && AllLetters(b) && AllLetters(a + b)
    ensures Values(a + b) == Values(a) + Values(b)
  {
    assert forall i :: 0 <= i < |a + b| ==> (a + b)[i] == if i < |a| then a[i] else b[i - |a|];
  }

  method Filtered(s: seq<byte>) returns (out: seq<byte>)
    ensures out == Strip(s)
  {
    out := [];
    for i := 0 to |s|
      invariant out + Strip(s[i..]) == Strip(s)
    {
      assert s[i..][1..] == s[i + 1..];
      if s[i] != PAD && !IsSpace(s[i]) { out := out + [s[i]]; }
    }
  }

  /** The values of one group, into the buffer; false at the first character outside the alphabet. */
  method Lookup(table: array<byte>, chunk: seq<byte>, buf: array<byte>) returns (ok: bool)
    requires table.Length == 256 && buf.Length == 4 && |chunk| <= 4 && table != buf
    requires forall c: byte :: table[c as int] == Value(c)
    modifies buf
    ensures ok <==> AllLetters(chunk)
    ensures ok ==> forall i :: 0 <= i < |chunk| ==> buf[i] == Value(chunk[i])
  {
    for i := 0 to |chunk|
      invariant forall j :: 0 <= j < i ==> Value(chunk[j]) != 255 && buf[j] == Value(chunk[j])
      invariant forall c: byte :: table[c as int] == Value(c)
    {
      var v := table[chunk[i] as int];
      if v == 255 { return false; }
      buf[i] := v;
    }
    ok := true;
  }
}
