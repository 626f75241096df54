/** Which shards a member announces (`parse_shards` of rapid-shard/src/lib.rs): the trimmed non-empty
    stretches between delimiters of one tag, each at its first occurrence. */
module ShardTags {
  import opened Types
  import opened Listings
  import opened KeyOrder
  import opened ViewChange

  /** How a directory reads its metadata: the tag, the separator, and the library's UTF-8 decoding
      and white space. */
  datatype Reading = Reading(key: string, delimiter: char, utf8: seq<byte> -> Option<string>, space: char -> bool)

  // ---------------------------------------------------------------- parsing

  /** `s.split(delimiter)`. */
  function Split(s: string, d: char): (pieces: seq<string>)
    ensures pieces != []
  {
    if s == [] then [[]]
    else
      var rest := Split(s[1..], d);
      if s[0] == d then [[]] + rest else [[s[0]] + rest[0]] + rest[1..]
  }

  function TrimLeft(s: string, space: char -> bool): string {
    if s != [] && space(s[0]) then TrimLeft(s[1..], space) else s
  }

  function TrimRight(s: string, space: char -> bool): string {
    if s != [] && space(s[|s| - 1]) then TrimRight(s[..|s| - 1], space) else s
  }

  function Trim(s: string, space: char -> bool): string { TrimRight(TrimLeft(s, space), space) }

  /** Trimmed, without empties, keeping only first occurrences after `seen`. */
  function Cleaned(pieces: seq<string>, space: char -> bool, seen: set<string>): seq<string> {
    if pieces == [] then []
    else
      var t := Trim(pieces[0], space);
      if t == [] || t in seen then Cleaned(pieces[1..], space, seen)
      else [t] + Cleaned(pieces[1..], space, seen + {t})
  }

  /** `parse_shards`. */
  function ParseShards(r: Reading, meta: Metadata): seq<string> {
    if r.key !in meta || r.utf8(meta[r.key]).None? then []
    else Cleaned(Split(r.utf8(meta[r.key]).value, r.delimiter), r.space, {})
  }

  lemma {:induction false} CleanedOnce(pieces: seq<string>, space: char -> bool, seen: set<string>)
    ensures Distinct(Cleaned(pieces, space, seen))
    ensures forall t :: t in Cleaned(pieces, space, seen) ==> t != [] && t !in seen
  {
    if pieces != [] {
      var t := Trim(pieces[0], space);
      CleanedOnce(pieces[1..], space, if t == [] || t in seen then seen else seen + {t});
    }
  }

  /** Which shards come out: the trimmed non-empty pieces. */
  lemma {:induction false} CleanedAll(pieces: seq<string>, space: char -> bool, seen: set<string>, t: string)
    ensures t in Cleaned(pieces, space, seen)
            <==> t != [] && t !in seen && exists i :: 0 <= i < |pieces| && Trim(pieces[i], space) == t
  {
    if pieces != [] {
      var u := Trim(pieces[0], space);
      CleanedAll(pieces[1..], space, if u == [] || u in seen then seen else seen + {u}, t);
      if i :| 0 <= i < |pieces| && Trim(pieces[i], space) == t {
        assert i > 0 ==> pieces[1..][i - 1] == pieces[i];
      }
      if i :| 0 <= i < |pieces[1..]| && Trim(pieces[1..][i], space) == t {
        assert pieces[i + 1] == pieces[1..][i];
      }
    }
  }

  // ---------------------------------------------------------------- splitting

  /** The pieces with the delimiter between them. */
  function Join(pieces: seq<string>, d: char): string {
    if pieces == [] then [] else if |pieces| == 1 then pieces[0] else pieces[0] + [d] + Join(pieces[1..], d)
  }

  predicate Free(pieces: seq<string>, d: char) { forall i :: 0 <= i < |pieces| ==> d !in pieces[i] }

  /** Splitting takes out the delimiters and nothing else: no piece holds one, the pieces joined give the
      text back, and there is one more of them than delimiters. */
  lemma {:induction false} SplitLaws(s: string, d: char)
    ensures |Split(s, d)| == 1 + multiset(s)[d] && Free(Split(s, d), d) && Join(Split(s, d), d) == s
  {
    if s != [] {
      SplitLaws(s[1..], d);
      assert s == [s[0]] + s[1..];
      SplitFirst(s[0], Split(s[1..], d), d);
    }
  }

  lemma SplitFirst(c: char, rest: seq<string>, d: char)
    requires rest != [] && Free(rest, d)
    ensures Free([[]] + rest, d) && Join([[]] + rest, d) == [d] + Join(rest, d)
    ensures c != d ==>
              Free([[c] + rest[0]] + rest[1..], d) && Join([[c] + rest[0]] + rest[1..], d) == [c] + Join(rest, d)
  {
    assert ([[]] + rest)[1..] == rest;
    var longer := [[c] + rest[0]] + rest[1..];
    assert longer[1..] == rest[1..];
    assert forall i :: 1 <= i < |longer| ==> longer[i] == rest[i];
  }

  /** There is no other way to do that. */
  lemma {:induction false} SplitUnique(pieces: seq<string>, d: char)
    requires pieces != [] && Free(pieces, d)
    ensures Split(Join(pieces, d), d) == pieces
    decreases |pieces|
  {
    if |pieces| == 1 {
      SplitNone(pieces[0], d);
    } else {
      SplitUnique(pieces[1..], d);
      SplitAfter(pieces[0], Join(pieces[1..], d), d);
    }
  }

  lemma {:induction false} SplitNone(p: string, d: char)
    requires d !in p
    ensures Split(p, d) == [p]
  {
    if p != [] {
      SplitNone(p[1..], d);
      assert p[0] in p && [p[0]] + p[1..] == p;
    }
  }

  lemma {:induction false} SplitAfter(p: string, rest: string, d: char)
    requires d !in p
    ensures Split(p + [d] + rest, d) == [p] + Split(rest, d)
  {
    var s := p + [d] + rest;
    if p == [] {
      assert s[1..] == rest;
    } else {
      assert s[1..] == p[1..] + [d] + rest && s[0] == p[0];
      SplitAfter(p[1..], rest, d);
      assert p[0] in p && [p[0]] + p[1..] == p;
      assert ([p[1..]] + Split(rest, d))[1..] == Split(rest, d);
    }
  }

  // ---------------------------------------------------------------- trimming

  predicate Blank(s: string, space: char -> bool) { forall i :: 0 <= i < |s| ==> space(s[i]) }

  /** `t` is `s` without the white space at its ends. */
  ghost predicate IsTrim(s: string, t: string, space: char -> bool) {
    && (t != [] ==> !space(t[0]) && !space(t[|t| - 1]))
    && exists left, right :: s == left + t + right && Blank(left, space) && Blank(right, space)
  }

  /** Only white space is cut, and as much as there is ... */
  lemma TrimIsTrim(s: string, space: char -> bool)
    ensures IsTrim(s, Trim(s, space), space)
  {
    var left := CutLeft(s, space);
    var right := CutRight(TrimLeft(s, space), space);
    assert s == left + Trim(s, space) + right;
    TrimEnds(s, space);
  }

  lemma {:induction false} CutLeft(s: string, space: char -> bool) returns (left: string)
    ensures s == left + TrimLeft(s, space) && Blank(left, space)
    ensures TrimLeft(s, space) != [] ==> !space(TrimLeft(s, space)[0])
  {
    left := [];
    if s != [] && space(s[0]) {
      var more := CutLeft(s[1..], space);
      left := [s[0]] + more;
    }
  }

  lemma {:induction false} CutRight(s: string, space: char -> bool) returns (right: string)
    ensures s == TrimRight(s, space) + right && Blank(right, space)
    ensures TrimRight(s, space) != [] ==>
              !space(TrimRight(s, space)[|TrimRight(s, space)| - 1]) && TrimRight(s, space)[0] == s[0]
  {
    right := [];
    if s != [] && space(s[|s| - 1]) {
      var more := CutRight(s[..|s| - 1], space);
      right := more + [s[|s| - 1]];
    }
  }

  lemma TrimEnds(s: string, space: char -> bool)
    ensures var t := Trim(s, space); t != [] ==> !space(t[0]) && !space(t[|t| - 1])
  {
    var left := CutLeft(s, space);
    var right := CutRight(TrimLeft(s, space), space);
  }

  /** ... which leaves one result. */
  lemma TrimUnique(s: string, t: string, u: string, space: char -> bool)
    requires IsTrim(s, t, space) && IsTrim(s, u, space)
    ensures t == u
  {
    var a, b :| s == a + t + b && Blank(a, space) && Blank(b, space);
    var c, e :| s == c + u + e && Blank(c, space) && Blank(e, space);
    NotLonger(s, a, t, b, c, u, e, space);
    NotLonger(s, c, u, e, a, t, b, space);
    if t != [] && u != [] {
      assert t == s[|a|..|a| + |t|] && u == s[|c|..|c| + |u|];
    } else if t != [] {
      AllBlank(s, c, e, a, t, b, space);
    } else if u != [] {
      AllBlank(s, a, b, c, u, e, space);
    }
  }

  /** White space holds no text that begins with anything else. */
  lemma AllBlank(s: string, left: string, right: string, a: string, t: string, b: string, space: char -> bool)
    requires s == left + right == a + t + b && Blank(left, space) && Blank(right, space)
    ensures t != [] ==> space(t[0])
  {
    assert forall i :: 0 <= i < |left| ==> s[i] == left[i];
    assert forall i :: |left| <= i < |s| ==> s[i] == right[i - |left|];
    assert t != [] ==> s[|a|] == t[0];
  }

  /** A text that begins and ends with other than white space lies within what trimming keeps. */
  lemma NotLonger(s: string, a: string, t: string, b: string, c: string, u: string, e: string, space: char -> bool)
    requires s == a + t + b == c + u + e
    requires Blank(a, space) && Blank(b, space)
    requires u != [] ==> !space(u[0]) && !space(u[|u| - 1])
    ensures u == [] || (|a| <= |c| && |e| >= |b|)
  {
    assert forall i :: 0 <= i < |a| ==> s[i] == a[i];
    assert forall i :: 0 <= i < |b| ==> s[|a| + |t| + i] == b[i];
    assert forall i :: |a| + |t| <= i < |s| ==> s[i] == b[i - |a| - |t|];
    assert u != [] ==> s[|c|] == u[0] && s[|c| + |u| - 1] == u[|u| - 1];
  }

  // ---------------------------------------------------------------- what is announced

  /** From `i` to `j` the text holds no delimiter, and there is none to add on either side. */
  predicate Stretch(text: string, d: char, i: int, j: int) {
    && 0 <= i <= j <= |text| && d !in text[i..j]
    && (i > 0 ==> text[i - 1] == d) && (j < |text| ==> text[j] == d)
  }

  /** Where piece `k` begins in the pieces joined. */
  function Offset(pieces: seq<string>, k: nat): nat
    requires k < |pieces|
  {
    if k == 0 then 0 else |pieces[0]| + 1 + Offset(pieces[1..], k - 1)
  }

  /** A stretch of the text that reads `piece` begins at `i`. */
  predicate PieceAt(text: string, d: char, i: nat, piece: string) {
    Stretch(text, d, i, i + |piece|) && text[i..i + |piece|] == piece
  }

  /** The pieces are stretches of the text ... */
  lemma {:induction false} PieceIsStretch(pieces: seq<string>, d: char, k: nat)
    requires k < |pieces| && Free(pieces, d)
    ensures PieceAt(Join(pieces, d), d, Offset(pieces, k), pieces[k])
    decreases k
  {
    if |pieces| == 1 {
      OnlyPiece(pieces[0], d);
    } else if k == 0 {
      FirstPiece(pieces[0], Join(pieces[1..], d), d);
    } else {
      PieceIsStretch(pieces[1..], d, k - 1);
      LaterPiece(pieces[0], Join(pieces[1..], d), d, Offset(pieces[1..], k - 1), pieces[k]);
    }
  }

  lemma OnlyPiece(p: string, d: char)
    requires d !in p
    ensures PieceAt(p, d, 0, p)
  {
    assert p[0..|p|] == p;
  }

  lemma FirstPiece(p: string, rest: string, d: char)
    requires d !in p
    ensures PieceAt(p + [d] + rest, d, 0, p)
  {
    assert (p + [d] + rest)[0..|p|] == p;
  }

  lemma LaterPiece(p: string, rest: string, d: char, i: nat, piece: string)
    requires PieceAt(rest, d, i, piece)
    ensures PieceAt(p + [d] + rest, d, |p| + 1 + i, piece)
  {
    StretchMoves(p, rest, d, i, i + |piece|);
  }

  /** What a delimiter and text before it do to a stretch. */
  lemma StretchMoves(p: string, rest: string, d: char, i: nat, j: nat)
    ensures var n := |p| + 1;
            && (Stretch(p + [d] + rest, d, n + i, n + j) <==> Stretch(rest, d, i, j))
            && (i <= j <= |rest| ==> (p + [d] + rest)[n + i..n + j] == rest[i..j])
  {
    var n, text := |p| + 1, p + [d] + rest;
    assert forall k :: 0 <= k < |rest| ==> text[n + k] == rest[k];
    if i <= j <= |rest| {
      assert text[n + i..n + j] == rest[i..j];
    }
  }

  /** ... and every stretch is a piece. */
  lemma {:induction false} StretchIsPiece(pieces: seq<string>, d: char, i: nat, j: nat) returns (k: nat)
    requires pieces != [] && Free(pieces, d) && Stretch(Join(pieces, d), d, i, j)
    ensures k < |pieces| && i == Offset(pieces, k) && j == i + |pieces[k]|
    decreases |pieces|
  {
    k := 0;
    var p := pieces[0];
    if |pieces| == 1 {
      Inside(p, [], d, i);
    } else {
      var rest := Join(pieces[1..], d);
      var text := p + [d] + rest;
      if i == 0 {
        WholePiece(p, rest, d, j);
      } else {
        AfterDelimiter(p, rest, d, i);
        StretchMoves(p, rest, d, i - |p| - 1, j - |p| - 1);
        k := StretchIsPiece(pieces[1..], d, i - |p| - 1, j - |p| - 1);
        k := k + 1;
      }
    }
  }

  lemma Inside(p: string, rest: string, d: char, i: nat)
    requires d !in p && i <= |p| && (i > 0 ==> (p + rest)[i - 1] == d)
    ensures i == 0
  {
    assert forall m :: 0 <= m < |p| ==> (p + rest)[m] == p[m] && p[m] in p;
  }

  lemma AfterDelimiter(p: string, rest: string, d: char, i: nat)
    requires d !in p && 0 < i <= |p| + 1 + |rest| && (p + [d] + rest)[i - 1] == d
    ensures i > |p|
  {
    assert forall m :: 0 <= m < |p| ==> (p + [d] + rest)[m] == p[m] && p[m] in p;
  }

  lemma WholePiece(p: string, rest: string, d: char, j: nat)
    requires d !in p && Stretch(p + [d] + rest, d, 0, j)
    ensures j == |p|
  {
    var text := p + [d] + rest;
    assert text[|p|] == d;
    assert forall m :: 0 <= m < |p| ==> text[m] == p[m] && p[m] in p;
    assert forall m :: 0 <= m < j ==> text[m] == text[0..j][m] && text[0..j][m] in text[0..j];
  }

  lemma {:induction false} OffsetsAscend(pieces: seq<string>, k: nat, m: nat)
    requires k < m < |pieces|
    ensures Offset(pieces, k) < Offset(pieces, m)
    decreases k
  {
    if k > 0 {
      OffsetsAscend(pieces[1..], k - 1, m - 1);
    }
  }

  /** `t` is what trimming leaves of the stretch that begins at `i`. */
  ghost predicate Yields(text: string, d: char, space: char -> bool, i: int, t: string) {
    exists j :: Stretch(text, d, i, j) && IsTrim(text[i..j], t, space)
  }

  /** The list is what the text announces: of its stretches what trimming leaves of them, if anything, and
      each once, in the order in which they are first seen, at the places `at`. */
  ghost predicate AnnouncedAt(text: string, d: char, space: char -> bool, list: seq<string>, at: seq<nat>) {
    && |at| == |list| && StrictlyAscending(at)
    && (forall j :: 0 <= j < |at| ==>
          && list[j] != [] && Yields(text, d, space, at[j], list[j])
          && forall i :: Yields(text, d, space, i, list[j]) ==> at[j] <= i)
    && (forall i, t {:trigger Yields(text, d, space, i, t)} :: t != [] && Yields(text, d, space, i, t) ==> t in list)
  }

  /** The trims of the pieces before `k`, as the set of shards seen so far. */
  function Seen(pieces: seq<string>, space: char -> bool, k: nat): set<string>
    requires k <= |pieces|
  {
    set i | 0 <= i < k && Trim(pieces[i], space) != [] :: Trim(pieces[i], space)
  }

  /** Piece `m` is the first that trims to `t`. */
  predicate FirstOf(pieces: seq<string>, space: char -> bool, m: nat, t: string) {
    m < |pieces| && t == Trim(pieces[m], space) != [] && t !in Seen(pieces, space, m)
  }

  /** `list` is what the pieces trim to, except for what was seen before piece `k`; `at` are the pieces that
      are the first to do so, in order. */
  ghost predicate CleanedAt(pieces: seq<string>, space: char -> bool, k: nat, list: seq<string>, at: seq<nat>)
    requires k <= |pieces|
  {
    && |at| == |list| && StrictlyAscending(at)
    && (forall j :: 0 <= j < |at| ==> k <= at[j] && FirstOf(pieces, space, at[j], list[j]))
    && (forall t :: t in Seen(pieces, space, |pieces|) ==> t in Seen(pieces, space, k) || t in list)
  }

  lemma {:induction false} CleanedFrom(pieces: seq<string>, space: char -> bool, k: nat) returns (at: seq<nat>)
    requires k <= |pieces|
    ensures CleanedAt(pieces, space, k, Cleaned(pieces[k..], space, Seen(pieces, space, k)), at)
    decreases |pieces| - k
  {
    at := [];
    if k == |pieces| {
      assert pieces[k..] == [];
    } else {
      var t, seen := Trim(pieces[k], space), Seen(pieces, space, k);
      assert pieces[k..][1..] == pieces[k + 1..];
      SeenNext(pieces, space, k);
      var rest := CleanedFrom(pieces, space, k + 1);
      var list := Cleaned(pieces[k + 1..], space, Seen(pieces, space, k + 1));
      if t == [] || t in seen {
        at := rest;
        assert Seen(pieces, space, k + 1) == seen;
        CleanedSkips(pieces, space, k, list, rest);
      } else {
        at := [k] + rest;
        assert pieces[k..][0] == pieces[k] && Seen(pieces, space, k + 1) == seen + {t};
        CleanedTakes(pieces, space, k, list, rest);
      }
    }
  }

  lemma SeenNext(pieces: seq<string>, space: char -> bool, k: nat)
    requires k < |pieces|
    ensures Seen(pieces, space, k + 1)
            == Seen(pieces, space, k) + if Trim(pieces[k], space) == [] then {} else {Trim(pieces[k], space)}
  {
  }

  lemma CleanedSkips(pieces: seq<string>, space: char -> bool, k: nat, list: seq<string>, at: seq<nat>)
    requires k < |pieces| && CleanedAt(pieces, space, k + 1, list, at)
    requires Trim(pieces[k], space) == [] || Trim(pieces[k], space) in Seen(pieces, space, k)
    ensures CleanedAt(pieces, space, k, list, at)
  {
    SeenNext(pieces, space, k);
    assert Seen(pieces, space, k + 1) == Seen(pieces, space, k);
  }

  lemma CleanedTakes(pieces: seq<string>, space: char -> bool, k: nat, list: seq<string>, at: seq<nat>)
    requires k < |pieces| && CleanedAt(pieces, space, k + 1, list, at)
    requires Trim(pieces[k], space) != [] && Trim(pieces[k], space) !in Seen(pieces, space, k)
    ensures CleanedAt(pieces, space, k, [Trim(pieces[k], space)] + list, [k] + at)
  {
    var t := Trim(pieces[k], space);
    SeenNext(pieces, space, k);
    LeastFirst(k, at);
    FirstToo(pieces, space, k, t, at, list);
    OneMore(Seen(pieces, space, k), Seen(pieces, space, |pieces|), t, list);
  }

  lemma LeastFirst(k: nat, at: seq<nat>)
    requires StrictlyAscending(at) && forall j :: 0 <= j < |at| ==> k < at[j]
    ensures StrictlyAscending([k] + at)
  {
  }

  lemma FirstToo(pieces: seq<string>, space: char -> bool, k: nat, t: string, at: seq<nat>, list: seq<string>)
    requires |at| == |list| && FirstOf(pieces, space, k, t)
    requires forall j :: 0 <= j < |at| ==> k + 1 <= at[j] && FirstOf(pieces, space, at[j], list[j])
    ensures forall j :: 0 <= j < |[k] + at| ==>
              k <= ([k] + at)[j] && FirstOf(pieces, space, ([k] + at)[j], ([t] + list)[j])
  {
    forall j | 0 <= j < |[k] + at|
      ensures k <= ([k] + at)[j] && FirstOf(pieces, space, ([k] + at)[j], ([t] + list)[j])
    {
      if j > 0 {
        assert ([k] + at)[j] == at[j - 1] && ([t] + list)[j] == list[j - 1];
      }
    }
  }

  lemma OneMore(seen: set<string>, whole: set<string>, t: string, list: seq<string>)
    requires forall u :: u in whole ==> u in seen + {t} || u in list
    ensures forall u :: u in whole ==> u in seen || u in [t] + list
  {
  }

  /** What `parse_shards` announces, said of the text alone. */
  lemma ParsedExactly(r: Reading, meta: Metadata)
    ensures var list := ParseShards(r, meta);
            if r.key in meta && r.utf8(meta[r.key]).Some? then
              exists at :: AnnouncedAt(r.utf8(meta[r.key]).value, r.delimiter, r.space, list, at)
            else list == []
  {
    if r.key in meta && r.utf8(meta[r.key]).Some? {
      var text := r.utf8(meta[r.key]).value;
      var pieces := Split(text, r.delimiter);
      assert pieces[0..] == pieces && Seen(pieces, r.space, 0) == {};
      SplitLaws(text, r.delimiter);
      var at := CleanedFrom(pieces, r.space, 0);
      var places := PlacesOf(pieces, at, r.delimiter, r.space, ParseShards(r, meta));
      assert AnnouncedAt(text, r.delimiter, r.space, ParseShards(r, meta), places);
    }
  }

  /** From positions among the pieces to places in the text. */
  lemma PlacesOf(pieces: seq<string>, at: seq<nat>, d: char, space: char -> bool, list: seq<string>)
    returns (places: seq<nat>)
    requires pieces != [] && Free(pieces, d) && CleanedAt(pieces, space, 0, list, at)
    ensures AnnouncedAt(Join(pieces, d), d, space, list, places)
  {
    var text := Join(pieces, d);
    places := seq(|at|, j requires 0 <= j < |at| => Offset(pieces, at[j]));
    forall j, k | 0 <= j < k < |places| ensures places[j] < places[k] {
      OffsetsAscend(pieces, at[j], at[k]);
    }
    forall k: nat | k < |pieces| ensures Yields(text, d, space, Offset(pieces, k), Trim(pieces[k], space)) {
      PieceYields(pieces, d, space, k);
    }
    forall i, t | t != [] && Yields(text, d, space, i, t) ensures t in list {
      var k := YieldsPiece(pieces, d, space, i, t);
      assert Trim(pieces[k], space) in Seen(pieces, space, |pieces|) && Seen(pieces, space, 0) == {};
    }
    forall j, i | 0 <= j < |at| && Yields(text, d, space, i, list[j]) ensures places[j] <= i {
      var k := YieldsPiece(pieces, d, space, i, list[j]);
      assert FirstOf(pieces, space, at[j], list[j]);
      NotEarlier(pieces, space, k, at[j]);
      if k > at[j] {
        OffsetsAscend(pieces, at[j], k);
      }
    }
  }

  lemma NotEarlier(pieces: seq<string>, space: char -> bool, k: nat, m: nat)
    requires k < |pieces| && m <= |pieces| && Trim(pieces[k], space) != []
    requires Trim(pieces[k], space) !in Seen(pieces, space, m)
    ensures m <= k
  {
  }

  lemma PieceYields(pieces: seq<string>, d: char, space: char -> bool, k: nat)
    requires k < |pieces| && Free(pieces, d)
    ensures Yields(Join(pieces, d), d, space, Offset(pieces, k), Trim(pieces[k], space))
  {
    PieceIsStretch(pieces, d, k);
    TrimIsTrim(pieces[k], space);
  }

  lemma YieldsPiece(pieces: seq<string>, d: char, space: char -> bool, i: int, t: string) returns (k: nat)
    requires pieces != [] && Free(pieces, d) && Yields(Join(pieces, d), d, space, i, t)
    ensures k < |pieces| && i == Offset(pieces, k) && t == Trim(pieces[k], space)
  {
    var j :| Stretch(Join(pieces, d), d, i, j) && IsTrim(Join(pieces, d)[i..j], t, space);
    k := StretchIsPiece(pieces, d, i, j);
    PieceIsStretch(pieces, d, k);
    TrimIsTrim(pieces[k], space);
    TrimUnique(pieces[k], t, Trim(pieces[k], space), space);
  }
}
