// The vCard export: escaping, folding and what a reader gets back (RFC 2426,
// sections 2.6 and 5).

module VCard {

  import opened Common

  type Byte = b: int | 0 <= b < 256
  type Bytes = seq<Byte>

  const BACKSLASH: Byte := 92
  const CR: Byte := 13
  const LF: Byte := 10
  const COMMA: Byte := 44
  const SEMICOLON: Byte := 59
  const LETTER_N: Byte := 110
  const SPACE: Byte := 32
  const TAB: Byte := 9
  const FOLD_WIDTH := 75

  // --- Escaping -------------------------------------------------------------------------

  /** The escaped form of the text's first unit, and how many bytes that unit has. */
  function EscapeHead(s: Bytes): (Bytes, nat)
    requires s != []
  {
    if s[0] == BACKSLASH then ([BACKSLASH, BACKSLASH], 1)
    else if s[0] == CR && |s| > 1 && s[1] == LF then ([BACKSLASH, LETTER_N], 2)
    else if s[0] == LF || s[0] == CR then ([BACKSLASH, LETTER_N], 1)
    else if s[0] == COMMA || s[0] == SEMICOLON then ([BACKSLASH, s[0]], 1)
    else ([s[0]], 1)
  }

  function Escape(s: Bytes): Bytes {
    if s == [] then [] else EscapeHead(s).0 + Escape(s[EscapeHead(s).1..])
  }

  /** Newlines of every kind become line feeds. */
  function Normalize(s: Bytes): Bytes {
    if s == [] then []
    else if s[0] == CR then [LF] + Normalize(if |s| > 1 && s[1] == LF then s[2..] else s[1..])
    else [s[0]] + Normalize(s[1..])
  }

  /** What a reader makes of an escaped value. */
  function Unescape(s: Bytes): Bytes {
    if s == [] then []
    else if s[0] == BACKSLASH && |s| > 1 then [if s[1] == LETTER_N then LF else s[1]] + Unescape(s[2..])
    else [s[0]] + Unescape(s[1..])
  }

  /** Unescaping gives the value back with its newlines normalised. */
  lemma {:induction false} UnescapeEscape(s: Bytes)
    ensures Unescape(Escape(s)) == Normalize(s)
  {
    if s != [] {
      var (head, n) := EscapeHead(s);
      UnescapeEscape(s[n..]);
      var e := Escape(s);
      assert e == head + Escape(s[n..]);
      if |head| == 2 {
        assert e[0] == BACKSLASH && e[1] == head[1] && e[2..] == Escape(s[n..]);
      } else {
        assert e[0] == s[0] && e[1..] == Escape(s[n..]);
      }
    }
  }

  /** An escaped value has no newline left in it. */
  lemma {:induction false} EscapedHasNoNewline(s: Bytes)
    ensures CR !in Escape(s) && LF !in Escape(s)
  {
    if s != [] { EscapedHasNoNewline(s[EscapeHead(s).1..]); }
  }

  // --- Lists of values -------------------------------------------------------------------------

  /** Splitting at separators that are not escaped. */
  function SplitOn(sep: Byte, s: Bytes): (parts: seq<Bytes>)
    ensures |parts| >= 1
  {
    if s == [] then [[]]
    else if s[0] == sep then [[]] + SplitOn(sep, s[1..])
    else
      var n := if s[0] == BACKSLASH && |s| > 1 then 2 else 1;
      var rest := SplitOn(sep, s[n..]);
      [s[..n] + rest[0]] + rest[1..]
  }

  function EscapeEach(values: seq<Bytes>): seq<Bytes> { seq(|values|, i requires 0 <= i < |values| => Escape(values[i])) }
  function UnescapeEach(values: seq<Bytes>): seq<Bytes> { seq(|values|, i requires 0 <= i < |values| => Unescape(values[i])) }
  function NormalizeEach(values: seq<Bytes>): seq<Bytes> { seq(|values|, i requires 0 <= i < |values| => Normalize(values[i])) }

  function Join(sep: Byte, parts: seq<Bytes>): Bytes {
    if parts == [] then [] else if |parts| == 1 then parts[0] else parts[0] + [sep] + Join(sep, parts[1..])
  }

  predicate IsSeparator(sep: Byte) { sep == COMMA || sep == SEMICOLON }

  lemma SplitUnit(sep: Byte, head: Bytes, t: Bytes)
    requires IsSeparator(sep)
    requires (|head| == 2 && head[0] == BACKSLASH) || (|head| == 1 && head[0] != BACKSLASH && head[0] != sep)
    ensures SplitOn(sep, head + t) == [head + SplitOn(sep, t)[0]] + SplitOn(sep, t)[1..]
  {
    var s := head + t;
    assert s[0] == head[0] && s[|head|..] == t && s[..|head|] == head;
  }

  /** An escaped value holds no separator of its own. */
  lemma {:induction false} SplitEscaped(sep: Byte, a: Bytes, t: Bytes)
    requires IsSeparator(sep)
    ensures SplitOn(sep, Escape(a) + t) == [Escape(a) + SplitOn(sep, t)[0]] + SplitOn(sep, t)[1..]
  {
    hide SplitOn, Normalize;
    if a == [] {
      assert Escape(a) + t == t && Escape(a) + SplitOn(sep, t)[0] == SplitOn(sep, t)[0];
      assert SplitOn(sep, t) == [SplitOn(sep, t)[0]] + SplitOn(sep, t)[1..];
    } else {
      var (head, n) := EscapeHead(a);
      var rest := Escape(a[n..]);
      assert Escape(a) == head + rest;
      SplitEscaped(sep, a[n..], t);
      SplitUnit(sep, head, rest + t);
      hide Escape, EscapeHead;
      assert Escape(a) + t == head + (rest + t);
      assert head + (rest + SplitOn(sep, t)[0]) == Escape(a) + SplitOn(sep, t)[0];
    }
  }

  lemma SplitSeparator(sep: Byte, t: Bytes)
    ensures SplitOn(sep, [sep] + t) == [[]] + SplitOn(sep, t)
    ensures SplitOn(sep, []) == [[]]
  {
    assert ([sep] + t)[1..] == t;
  }

  /** A joined list of escaped values splits back into them. */
  lemma {:induction false} SplitJoined(sep: Byte, values: seq<Bytes>)
    requires IsSeparator(sep) && values != []
    ensures SplitOn(sep, Join(sep, EscapeEach(values))) == EscapeEach(values)
  {
    hide SplitOn, Escape;
    var a, parts := Escape(values[0]), EscapeEach(values);
    SplitSeparator(sep, []);
    if |values| == 1 {
      SplitEscaped(sep, values[0], []);
      assert a + [] == a && parts == [a];
    } else {
      var rest := Join(sep, EscapeEach(values[1..]));
      SplitJoined(sep, values[1..]);
      SplitEscaped(sep, values[0], [sep] + rest);
      SplitSeparator(sep, rest);
      assert parts[1..] == EscapeEach(values[1..]);
      assert a + [sep] + rest == a + ([sep] + rest) && a + [] == a;
      assert ([[]] + EscapeEach(values[1..]))[1..] == EscapeEach(values[1..]);
      assert parts == [a] + parts[1..];
    }
  }

  /** CATEGORIES: the list comes back intact, each value with its newlines normalised. */
  lemma ListRoundTrip(sep: Byte, values: seq<Bytes>)
    requires IsSeparator(sep) && values != []
    ensures UnescapeEach(SplitOn(sep, Join(sep, EscapeEach(values)))) == NormalizeEach(values)
  {
    hide SplitOn, Escape, Unescape, Normalize, Join;
    SplitJoined(sep, values);
    forall i | 0 <= i < |values| ensures Unescape(Escape(values[i])) == Normalize(values[i]) { UnescapeEscape(values[i]); }
  }

  // --- Folding ---------------------------------------------------------------------------------------

  /** A byte 10xxxxxx, inside a UTF-8 sequence. */
  predicate Continuation(b: Byte) { 128 <= b < 192 }

  /** The last place at or before `cut`, and after the first byte, that is not inside a sequence. */
  function WalkBack(line: Bytes, cut: nat): nat
    requires cut < |line|
  {
    if cut > 1 && Continuation(line[cut]) then WalkBack(line, cut - 1) else cut
  }

  lemma {:induction false} WalkBackStops(line: Bytes, cut: nat)
    requires 1 <= cut < |line|
    ensures 1 <= WalkBack(line, cut) <= cut
    ensures WalkBack(line, cut) > 1 ==> !Continuation(line[WalkBack(line, cut)])
    ensures forall j | WalkBack(line, cut) < j <= cut :: Continuation(line[j])
  {
    if cut > 1 && Continuation(line[cut]) { WalkBackStops(line, cut - 1); }
  }

  /** The pieces a line is cut into. */
  function Pieces(line: Bytes): (ps: seq<Bytes>)
    ensures |ps| >= 1
    decreases |line|
  {
    if |line| <= FOLD_WIDTH then [line]
    else
      WalkBackStops(line, FOLD_WIDTH);
      var cut := WalkBack(line, FOLD_WIDTH);
      [line[..cut]] + Pieces(line[cut..])
  }

  function Render(ps: seq<Bytes>): Bytes
    requires |ps| >= 1
  {
    if |ps| == 1 then ps[0] + [CR, LF] else ps[0] + [CR, LF, SPACE] + Render(ps[1..])
  }

  function Fold(line: Bytes): Bytes { Render(Pieces(line)) }

  method WriteLine(b: Bytes, line: Bytes) returns (b': Bytes)
    ensures b' == b + Fold(line)
  {
    hide Render;
    b' := b;
    var rest := line;
    while |rest| > FOLD_WIDTH
      invariant b' + Fold(rest) == b + Fold(line)
      decreases |rest|
    {
      var cut := FOLD_WIDTH;
      while cut > 1 && Continuation(rest[cut])
        invariant 1 <= cut <= FOLD_WIDTH && WalkBack(rest, cut) == WalkBack(rest, FOLD_WIDTH)
      {
        cut := cut - 1;
      }
      RenderStep(rest[..cut], Pieces(rest[cut..]));
      Regroup(b', rest[..cut] + [CR, LF, SPACE], Fold(rest[cut..]));
      b' := b' + (rest[..cut] + [CR, LF] + [SPACE]);
      rest := rest[cut..];
    }
    RenderLast(rest);
    Regroup(b', rest, [CR, LF]);
    b' := b' + rest + [CR, LF];
  }

  lemma RenderStep(p: Bytes, ps: seq<Bytes>)
    requires |ps| >= 1
    ensures Render([p] + ps) == p + [CR, LF, SPACE] + Render(ps)
  {
    assert ([p] + ps)[1..] == ps;
  }

  lemma RenderLast(p: Bytes)
    ensures Render([p]) == p + [CR, LF]
  {
  }

  // --- Reading the stream back -------------------------------------------------------------------------

  /** A line break followed by white space is removed together with that white space. */
  function Unfold(s: Bytes): Bytes {
    if s == [] then []
    else if |s| >= 3 && s[0] == CR && s[1] == LF && (s[2] == SPACE || s[2] == TAB) then Unfold(s[3..])
    else [s[0]] + Unfold(s[1..])
  }

  /** The lines that CRLF ends. */
  function Lines(s: Bytes): seq<Bytes> {
    if s == [] then []
    else if |s| >= 2 && s[0] == CR && s[1] == LF then [[]] + Lines(s[2..])
    else
      var rest := Lines(s[1..]);
      if rest == [] then [[s[0]]] else [[s[0]] + rest[0]] + rest[1..]
  }

  lemma {:induction false} UnfoldPlain(a: Bytes, t: Bytes)
    requires CR !in a
    ensures Unfold(a + t) == a + Unfold(t)
  {
    if a == [] {
      assert a + t == t;
    } else {
      var s := a + t;
      assert s[0] == a[0] && s[1..] == a[1..] + t && a[0] in a;
      UnfoldPlain(a[1..], t);
      hide Unfold;
      assert a + Unfold(t) == [a[0]] + (a[1..] + Unfold(t));
    }
  }

  lemma UnfoldContinuation(t: Bytes)
    ensures Unfold([CR, LF, SPACE] + t) == Unfold(t)
  {
    assert ([CR, LF, SPACE] + t)[3..] == t;
  }

  /** A byte that does not begin a fold stays. */
  lemma UnfoldStep(u: Bytes)
    requires u != [] && (|u| < 3 || (u[2] != SPACE && u[2] != TAB))
    ensures Unfold(u) == [u[0]] + Unfold(u[1..])
  {
  }

  lemma UnfoldBreak(t: Bytes)
    requires t == [] || (t[0] != SPACE && t[0] != TAB)
    ensures Unfold([CR, LF] + t) == [CR, LF] + Unfold(t)
  {
    hide Unfold;
    var u := [CR, LF] + t;
    assert u[1..] == [LF] + t && (t != [] ==> u[2] == t[0]);
    UnfoldStep(u);
    UnfoldPlain([LF], t);
    Regroup([CR], [LF], Unfold(t));
  }

  function Concat(ps: seq<Bytes>): Bytes { if ps == [] then [] else ps[0] + Concat(ps[1..]) }

  lemma {:induction false} PiecesConcat(line: Bytes)
    ensures Concat(Pieces(line)) == line
    decreases |line|
  {
    if |line| <= FOLD_WIDTH {
      assert Concat([line]) == line + Concat([]);
    } else {
      WalkBackStops(line, FOLD_WIDTH);
      var cut := WalkBack(line, FOLD_WIDTH);
      PiecesConcat(line[cut..]);
      assert ([line[..cut]] + Pieces(line[cut..]))[1..] == Pieces(line[cut..]);
      assert line == line[..cut] + line[cut..];
    }
  }

  lemma {:induction false} UnfoldRendered(ps: seq<Bytes>, t: Bytes)
    requires |ps| >= 1 && (forall i | 0 <= i < |ps| :: CR !in ps[i]) && (t == [] || (t[0] != SPACE && t[0] != TAB))
    ensures Unfold(Render(ps) + t) == Concat(ps) + [CR, LF] + Unfold(t)
  {
    hide Unfold;
    UnfoldBreak(t);
    if |ps| == 1 {
      assert Render(ps) + t == ps[0] + ([CR, LF] + t);
      UnfoldPlain(ps[0], [CR, LF] + t);
      assert Concat(ps) == ps[0] + Concat([]);
      Regroup(ps[0], [CR, LF], Unfold(t));
    } else {
      var rest := Render(ps[1..]) + t;
      UnfoldRendered(ps[1..], t);
      assert Render(ps) + t == ps[0] + ([CR, LF, SPACE] + rest);
      UnfoldPlain(ps[0], [CR, LF, SPACE] + rest);
      UnfoldContinuation(rest);
      assert ps[0] + (Concat(ps[1..]) + [CR, LF] + Unfold(t)) == ps[0] + Concat(ps[1..]) + [CR, LF] + Unfold(t);
    }
  }

  lemma {:induction false} PiecesHaveNoBreak(line: Bytes)
    requires CR !in line
    ensures forall i | 0 <= i < |Pieces(line)| :: CR !in Pieces(line)[i]
    decreases |line|
  {
    if |line| > FOLD_WIDTH {
      WalkBackStops(line, FOLD_WIDTH);
      var cut := WalkBack(line, FOLD_WIDTH);
      PiecesHaveNoBreak(line[cut..]);
    }
  }

  /** Unfolding a written line gives the line back. */
  lemma UnfoldFold(line: Bytes, t: Bytes)
    requires CR !in line && (t == [] || (t[0] != SPACE && t[0] != TAB))
    ensures Unfold(Fold(line) + t) == line + [CR, LF] + Unfold(t)
  {
    hide Unfold, Render, Pieces;
    PiecesHaveNoBreak(line);
    UnfoldRendered(Pieces(line), t);
    PiecesConcat(line);
  }

  lemma {:induction false} LinesStep(line: Bytes, t: Bytes)
    requires CR !in line
    ensures Lines(line + [CR, LF] + t) == [line] + Lines(t)
  {
    var s := line + [CR, LF] + t;
    if line == [] {
      assert s[2..] == t;
    } else {
      assert s[0] == line[0] && line[0] in line && s[1..] == line[1..] + [CR, LF] + t;
      LinesStep(line[1..], t);
      hide Lines;
      assert [line[0]] + line[1..] == line;
    }
  }

  function FoldAll(lines: seq<Bytes>): Bytes { if lines == [] then [] else Fold(lines[0]) + FoldAll(lines[1..]) }

  /** A content line: some text, no line break, and no white space in front. */
  predicate ContentLine(line: Bytes) { line != [] && CR !in line && line[0] != SPACE && line[0] != TAB }

  lemma FoldStarts(line: Bytes, t: Bytes)
    requires line != []
    ensures Fold(line) != [] && (Fold(line) + t)[0] == line[0]
  {
    if |line| > FOLD_WIDTH { WalkBackStops(line, FOLD_WIDTH); }
    assert Pieces(line)[0] != [] && Pieces(line)[0][0] == line[0];
  }

  /** Unfolding a whole stream and taking its lines gives back the content lines written. */
  lemma {:induction false} StreamRoundTrip(lines: seq<Bytes>)
    requires forall i | 0 <= i < |lines| :: ContentLine(lines[i])
    ensures Lines(Unfold(FoldAll(lines))) == lines
  {
    if lines != [] {
      hide Lines, Unfold, Fold;
      var t := FoldAll(lines[1..]);
      StreamRoundTrip(lines[1..]);
      if |lines| > 1 { FoldStarts(lines[1], FoldAll(lines[1..][1..])); }
      UnfoldFold(lines[0], t);
      LinesStep(lines[0], Unfold(t));
      assert lines == [lines[0]] + lines[1..];
    } else {
      assert Unfold([]) == [] && Lines([]) == [];
    }
  }

  // --- What a physical line holds --------------------------------------------------------------------

  /** The length of the UTF-8 sequence a byte starts, 0 if it starts none. */
  function SequenceLength(b: Byte): nat {
    if b < 128 then 1 else if b < 192 then 0 else if b < 224 then 2 else if b < 240 then 3 else if b < 248 then 4 else 0
  }

  /** Whole sequences: each first byte is followed by its continuation bytes. */
  predicate ValidUtf8(s: Bytes) {
    s == [] ||
    (var n := SequenceLength(s[0]);
     n > 0 && n <= |s| && (forall i | 1 <= i < n :: Continuation(s[i])) && ValidUtf8(s[n..]))
  }

  type CodePoint = c: nat | c <= 0x10_FFFF

  /** A code point in UTF-8, section 3 of RFC 3629. */
  function Encode(c: CodePoint): (b: Bytes)
    ensures b != []
  {
    if c < 0x80 then [c as Byte]
    else if c < 0x800 then [(0xC0 + c / 64) as Byte, (0x80 + c % 64) as Byte]
    else if c < 0x1_0000 then [(0xE0 + c / 4096) as Byte, (0x80 + c / 64 % 64) as Byte, (0x80 + c % 64) as Byte]
    else [(0xF0 + c / 262144) as Byte, (0x80 + c / 4096 % 64) as Byte, (0x80 + c / 64 % 64) as Byte, (0x80 + c % 64) as Byte]
  }

  function EncodeAll(cs: seq<CodePoint>): Bytes {
    if cs == [] then [] else Encode(cs[0]) + EncodeAll(cs[1..])
  }

  /** The first byte tells the length, and the others are the continuation bytes. */
  lemma EncodeIsSequence(c: CodePoint)
    ensures SequenceLength(Encode(c)[0]) == |Encode(c)| && !Continuation(Encode(c)[0])
    ensures forall i | 1 <= i < |Encode(c)| :: Continuation(Encode(c)[i])
  {
  }

  /** All text is valid in this sense. */
  lemma {:induction false} EncodedIsValid(cs: seq<CodePoint>)
    ensures ValidUtf8(EncodeAll(cs))
  {
    if cs != [] {
      hide Encode, SequenceLength, Continuation;
      EncodedIsValid(cs[1..]);
      EncodeIsSequence(cs[0]);
      var first, s := Encode(cs[0]), EncodeAll(cs);
      assert s[0] == first[0] && s[|first|..] == EncodeAll(cs[1..]);
      assert forall i | 1 <= i < |first| :: s[i] == first[i];
    }
  }

  /** Cutting valid text anywhere but inside a sequence leaves two valid texts. */
  lemma {:induction false} CutIsValid(s: Bytes, cut: nat)
    requires ValidUtf8(s) && cut < |s| && !Continuation(s[cut])
    ensures ValidUtf8(s[..cut]) && ValidUtf8(s[cut..])
  {
    var n := SequenceLength(s[0]);
    if cut == 0 {
      assert s[0..] == s;
    } else {
      assert cut >= n;
      if cut - n < |s[n..]| { CutIsValid(s[n..], cut - n); }
      assert s[n..][cut - n..] == s[cut..];
      assert s[..cut][n..] == s[n..][..cut - n];
    }
  }

  /** Of any four neighbouring bytes of valid text one is not a continuation. */
  lemma {:induction false} BoundaryNear(s: Bytes, i: nat) returns (j: nat)
    requires ValidUtf8(s) && 3 <= i < |s|
    ensures i - 3 <= j <= i && !Continuation(s[j])
  {
    var n := SequenceLength(s[0]);
    if n > i {
      j := 0;
    } else if i - 3 < n {
      assert s[n..][0] == s[n];
      j := n;
    } else {
      var k := BoundaryNear(s[n..], i - n);
      j := k + n;
    }
  }

  lemma ValidCut(line: Bytes)
    requires ValidUtf8(line) && |line| > FOLD_WIDTH
    ensures var cut := WalkBack(line, FOLD_WIDTH);
            FOLD_WIDTH - 3 <= cut <= FOLD_WIDTH && !Continuation(line[cut])
  {
    WalkBackStops(line, FOLD_WIDTH);
    var j := BoundaryNear(line, FOLD_WIDTH);
  }

  /** No fold splits a sequence: every piece of valid text is valid on its own. */
  lemma {:induction false} PiecesAreValid(line: Bytes)
    requires ValidUtf8(line)
    ensures forall i | 0 <= i < |Pieces(line)| :: ValidUtf8(Pieces(line)[i])
    decreases |line|
  {
    hide ValidUtf8, WalkBack;
    if |line| > FOLD_WIDTH {
      WalkBackStops(line, FOLD_WIDTH);
      ValidCut(line);
      var cut := WalkBack(line, FOLD_WIDTH);
      CutIsValid(line, cut);
      PiecesAreValid(line[cut..]);
    }
  }

  /** A continuation line carries the fold's space in front of its piece. */
  function Physical(line: Bytes, i: nat): Bytes
    requires i < |Pieces(line)|
  {
    if i == 0 then Pieces(line)[0] else [SPACE] + Pieces(line)[i]
  }

  /** No piece is longer than 75 octets, so no physical line is longer than 76. */
  lemma {:induction false} PiecesFit(line: Bytes)
    ensures forall i | 0 <= i < |Pieces(line)| :: |Pieces(line)[i]| <= FOLD_WIDTH
    decreases |line|
  {
    hide WalkBack;
    if |line| > FOLD_WIDTH {
      WalkBackStops(line, FOLD_WIDTH);
      PiecesFit(line[WalkBack(line, FOLD_WIDTH)..]);
    }
  }

  /** The 75-octet limit itself is kept, for a line without multi-byte sequences, exactly up
      to 149 octets: the space of a continuation line is not counted when it is cut. */
  lemma WithinLimitIff(line: Bytes)
    requires forall i | 0 <= i < |line| :: !Continuation(line[i])
    ensures WithinLimit(line) <==> |line| < 2 * FOLD_WIDTH
  {
    PiecesFit(line);
    if |line| > FOLD_WIDTH {
      var rest := line[FOLD_WIDTH..];
      assert WalkBack(line, FOLD_WIDTH) == FOLD_WIDTH;
      assert Pieces(line) == [line[..FOLD_WIDTH]] + Pieces(rest);
      if |rest| < FOLD_WIDTH {
        assert Pieces(rest) == [rest];
      } else {
        assert rest != [] && |rest| > FOLD_WIDTH ==> !Continuation(rest[FOLD_WIDTH]);
        assert Pieces(line)[1] == Pieces(rest)[0] && |Pieces(rest)[0]| == FOLD_WIDTH;
        assert |Physical(line, 1)| == FOLD_WIDTH + 1;
      }
    }
  }

  /** No physical line is longer than 75 octets. */
  ghost predicate WithinLimit(line: Bytes) {
    forall i | 0 <= i < |Pieces(line)| :: |Physical(line, i)| <= FOLD_WIDTH
  }

  /** What is left of a line at the start of each of its continuation lines. */
  function Rests(line: Bytes): (rs: seq<Bytes>)
    ensures |rs| + 1 == |Pieces(line)|
    decreases |line|
  {
    if |line| <= FOLD_WIDTH then []
    else
      WalkBackStops(line, FOLD_WIDTH);
      var rest := line[WalkBack(line, FOLD_WIDTH)..];
      [rest] + Rests(rest)
  }

  /** The next cut leaves room for the space: little is left, or the cut falls inside a sequence. */
  predicate LeavesRoom(rest: Bytes) {
    |rest| < FOLD_WIDTH || (|rest| > FOLD_WIDTH && Continuation(rest[FOLD_WIDTH]))
  }

  lemma {:induction false} PieceOfRest(line: Bytes, i: nat)
    requires i < |Rests(line)|
    ensures Pieces(line)[i + 1] == Pieces(Rests(line)[i])[0]
    decreases |line|
  {
    WalkBackStops(line, FOLD_WIDTH);
    var rest := line[WalkBack(line, FOLD_WIDTH)..];
    if i > 0 { PieceOfRest(rest, i - 1); }
  }

  lemma FirstPieceShortIff(rest: Bytes)
    ensures |Pieces(rest)[0]| < FOLD_WIDTH <==> LeavesRoom(rest)
  {
    if |rest| > FOLD_WIDTH {
      WalkBackStops(rest, FOLD_WIDTH);
      if Continuation(rest[FOLD_WIDTH]) { WalkBackStops(rest, FOLD_WIDTH - 1); }
    }
  }

  lemma RoomIff(line: Bytes, i: nat)
    requires i < |Rests(line)|
    ensures |Physical(line, i + 1)| <= FOLD_WIDTH <==> LeavesRoom(Rests(line)[i])
  {
    PieceOfRest(line, i);
    FirstPieceShortIff(Rests(line)[i]);
  }

  /** The limit is kept, for a line of any kind, exactly when every continuation line's cut leaves
      room for its space. */
  lemma WithinLimitExactly(line: Bytes)
    ensures WithinLimit(line) <==> forall i | 0 <= i < |Rests(line)| :: LeavesRoom(Rests(line)[i])
  {
    hide Pieces, LeavesRoom, Rests;
    PiecesFit(line);
    if WithinLimit(line) {
      forall i | 0 <= i < |Rests(line)| ensures LeavesRoom(Rests(line)[i]) { RoomIff(line, i); }
    } else {
      var i :| 0 <= i < |Pieces(line)| && |Physical(line, i)| > FOLD_WIDTH;
      RoomIff(line, i - 1);
    }
  }

  /** A line of valid text of any kind keeps the limit up to 146 octets; one octet more, and it
      keeps the limit exactly when it was not cut at 72, in front of a four-byte sequence. */
  lemma WithinLimitUtf8(line: Bytes)
    requires ValidUtf8(line)
    ensures |line| <= 2 * FOLD_WIDTH - 4 ==> WithinLimit(line)
    ensures |line| == 2 * FOLD_WIDTH - 3 ==> (WithinLimit(line) <==> WalkBack(line, FOLD_WIDTH) > FOLD_WIDTH - 3)
  {
    hide ValidUtf8, WalkBack;
    if FOLD_WIDTH < |line| <= 2 * FOLD_WIDTH - 3 {
      ValidCut(line);
      var cut := WalkBack(line, FOLD_WIDTH);
      assert Pieces(line[cut..]) == [line[cut..]];
      assert Pieces(line) == [line[..cut], line[cut..]];
      assert |Physical(line, 1)| == 1 + |line| - cut;
    }
  }

  // --- The cards -----------------------------------------------------------------------------------------

  /** A contact as exported: text fields trimmed, the name split, id and time rendered. */
  datatype Contact = Contact(name: Bytes, family: Bytes, given: Bytes, email: Bytes, phone: Bytes, notes: Bytes,
                             roles: seq<Bytes>, uid: Bytes, rev: Bytes)

  /** The byte values of text in plain characters. */
  function Text(s: string): Bytes { seq(|s|, i requires 0 <= i < |s| => (if s[i] as int < 256 then s[i] as int else 63) as Byte) }

  function Property(name: string, value: Bytes): Bytes { Text(name) + Text(":") + value }

  /** A property with an empty value is left out. */
  function Optional(name: string, value: Bytes): seq<Bytes> { if value == [] then [] else [Property(name, Escape(value))] }

  function StructuredName(c: Contact): Bytes {
    Property("N", Escape(c.family) + [SEMICOLON] + Escape(c.given) + [SEMICOLON, SEMICOLON, SEMICOLON])
  }

  function Categories(c: Contact): seq<Bytes> {
    if c.roles == [] then [] else [Property("CATEGORIES", Join(COMMA, EscapeEach(c.roles)))]
  }

  /** The content lines of one card. */
  function CardLines(c: Contact): seq<Bytes> {
    [Text("BEGIN:VCARD"), Text("VERSION:3.0")]
    + Optional("FN", c.name) + [StructuredName(c)]
    + Optional("EMAIL;TYPE=INTERNET", c.email) + Optional("TEL;TYPE=VOICE", c.phone) + Optional("NOTE", c.notes)
    + Categories(c)
    + [Property("UID", Text("urn:uuid:") + c.uid), Property("REV", c.rev), Text("END:VCARD")]
  }

  function AllCardLines(cs: seq<Contact>): seq<Bytes> { if cs == [] then [] else AllCardLines(cs[..|cs| - 1]) + CardLines(cs[|cs| - 1]) }

  lemma {:induction false} FoldAllAppend(a: seq<Bytes>, b: seq<Bytes>)
    ensures FoldAll(a + b) == FoldAll(a) + FoldAll(b)
  {
    hide Fold;
    if a == [] {
      assert a + b == b;
    } else {
      FoldAllAppend(a[1..], b);
      assert (a + b)[0] == a[0] && (a + b)[1..] == a[1..] + b;
      Regroup(Fold(a[0]), FoldAll(a[1..]), FoldAll(b));
    }
  }

  method WriteLines(b: Bytes, lines: seq<Bytes>) returns (b': Bytes)
    ensures b' == b + FoldAll(lines)
  {
    hide Fold;
    b' := b;
    for i := 0 to |lines|
      invariant b' + FoldAll(lines[i..]) == b + FoldAll(lines)
    {
      assert lines[i..][0] == lines[i] && lines[i..][1..] == lines[i + 1..];
      Regroup(b', Fold(lines[i]), FoldAll(lines[i + 1..]));
      b' := WriteLine(b', lines[i]);
    }
  }

  /** ExportVCard: one card after the other. */
  method ExportVCard(cs: seq<Contact>) returns (b: Bytes)
    ensures b == FoldAll(AllCardLines(cs))
  {
    hide Fold, FoldAll, CardLines;
    b := [];
    FoldNothing();
    for i := 0 to |cs|
      invariant b == FoldAll(AllCardLines(cs[..i]))
    {
      assert cs[..i + 1][..i] == cs[..i];
      FoldAllAppend(AllCardLines(cs[..i]), CardLines(cs[i]));
      b := WriteLines(b, CardLines(cs[i]));
    }
    assert cs[..|cs|] == cs;
  }

  lemma FoldNothing()
    ensures FoldAll([]) == []
  {
  }

  /** Ids and times hold no line break. */
  predicate PlainIds(c: Contact) { CR !in c.uid && CR !in c.rev }

  lemma {:induction false} JoinHasNoBreak(sep: Byte, parts: seq<Bytes>)
    requires sep != CR && forall i | 0 <= i < |parts| :: CR !in parts[i]
    ensures CR !in Join(sep, parts)
  {
    if |parts| > 1 { JoinHasNoBreak(sep, parts[1..]); }
  }

  lemma PropertyIsContentLine(name: string, value: Bytes)
    requires name != "" && (forall i | 0 <= i < |name| :: 'A' <= name[i] <= 'Z' || name[i] == ';' || name[i] == '=') && CR !in value
    ensures ContentLine(Property(name, value))
  {
    var line := Property(name, value);
    assert line[0] == Text(name)[0];
    forall i | 0 <= i < |name| ensures Text(name)[i] != CR {
    }
    assert Text(":")[0] == 58;
  }

  lemma OptionalIsContentLine(name: string, value: Bytes)
    requires name != "" && forall i | 0 <= i < |name| :: 'A' <= name[i] <= 'Z' || name[i] == ';' || name[i] == '='
    ensures forall i | 0 <= i < |Optional(name, value)| :: ContentLine(Optional(name, value)[i])
  {
    hide Escape;
    EscapedHasNoNewline(value);
    if value != [] { PropertyIsContentLine(name, Escape(value)); }
  }

  lemma NameIsContentLine(c: Contact)
    ensures ContentLine(StructuredName(c))
  {
    hide Escape, ContentLine, Property;
    EscapedHasNoNewline(c.family);
    EscapedHasNoNewline(c.given);
    PropertyIsContentLine("N", Escape(c.family) + [SEMICOLON] + Escape(c.given) + [SEMICOLON, SEMICOLON, SEMICOLON]);
  }

  lemma RolesAreContentLine(c: Contact)
    ensures forall i | 0 <= i < |Categories(c)| :: ContentLine(Categories(c)[i])
  {
    hide Escape, Join, ContentLine, Property;
    forall i | 0 <= i < |c.roles| ensures CR !in EscapeEach(c.roles)[i] { EscapedHasNoNewline(c.roles[i]); }
    JoinHasNoBreak(COMMA, EscapeEach(c.roles));
    PropertyIsContentLine("CATEGORIES", Join(COMMA, EscapeEach(c.roles)));
  }

  lemma IdsAreContentLines(c: Contact)
    requires PlainIds(c)
    ensures ContentLine(Property("UID", Text("urn:uuid:") + c.uid)) && ContentLine(Property("REV", c.rev))
  {
    PlainTextHasNoBreak("urn:uuid:");
    hide ContentLine, Property;
    PropertyIsContentLine("UID", Text("urn:uuid:") + c.uid);
    PropertyIsContentLine("REV", c.rev);
  }

  lemma CardLinesAreContent(c: Contact)
    requires PlainIds(c)
    ensures forall i | 0 <= i < |CardLines(c)| :: ContentLine(CardLines(c)[i])
  {
    hide Property, ContentLine, Optional, Categories, StructuredName, Text;
    OptionalIsContentLine("FN", c.name);
    OptionalIsContentLine("EMAIL;TYPE=INTERNET", c.email);
    OptionalIsContentLine("TEL;TYPE=VOICE", c.phone);
    OptionalIsContentLine("NOTE", c.notes);
    NameIsContentLine(c);
    RolesAreContentLine(c);
    IdsAreContentLines(c);
    FixedLines();
  }

  lemma PlainTextHasNoBreak(s: string)
    requires forall i | 0 <= i < |s| :: s[i] != '\r' && (s[i] as int) < 256
    ensures CR !in Text(s)
  {
  }

  lemma FixedLines()
    ensures ContentLine(Text("BEGIN:VCARD")) && ContentLine(Text("VERSION:3.0")) && ContentLine(Text("END:VCARD"))
  {
    PlainTextHasNoBreak("BEGIN:VCARD");
    PlainTextHasNoBreak("VERSION:3.0");
    PlainTextHasNoBreak("END:VCARD");
    assert Text("BEGIN:VCARD")[0] == 66 && Text("VERSION:3.0")[0] == 86 && Text("END:VCARD")[0] == 69;
  }

  lemma {:induction false} AllCardLinesAreContent(cs: seq<Contact>)
    requires forall i | 0 <= i < |cs| :: PlainIds(cs[i])
    ensures forall i | 0 <= i < |AllCardLines(cs)| :: ContentLine(AllCardLines(cs)[i])
  {
    hide CardLines, ContentLine;
    if cs != [] {
      AllCardLinesAreContent(cs[..|cs| - 1]);
      CardLinesAreContent(cs[|cs| - 1]);
    }
  }

  /** Unfolding the export gives back the content lines of all cards, in order. */
  lemma ExportRoundTrip(cs: seq<Contact>)
    requires forall i | 0 <= i < |cs| :: PlainIds(cs[i])
    ensures Lines(Unfold(FoldAll(AllCardLines(cs)))) == AllCardLines(cs)
  {
    AllCardLinesAreContent(cs);
    StreamRoundTrip(AllCardLines(cs));
  }

  const COLON: Byte := 58

  /** What follows the first colon of a line. */
  function ValueOf(line: Bytes): Bytes { if line == [] then [] else if line[0] == COLON then line[1..] else ValueOf(line[1..]) }

  lemma {:induction false} ValueOfProperty(name: Bytes, value: Bytes)
    requires COLON !in name
    ensures ValueOf(name + [COLON] + value) == value
  {
    var line := name + [COLON] + value;
    if name == [] {
      assert line[1..] == value;
    } else {
      assert line[0] == name[0] && name[0] in name && line[1..] == name[1..] + [COLON] + value;
      ValueOfProperty(name[1..], value);
    }
  }

  /** Reading a property of the card gives back its value with newlines normalised. */
  lemma ValueRoundTrip(name: string, value: Bytes)
    requires forall i | 0 <= i < |name| :: name[i] != ':' && (name[i] as int) < 256
    ensures Unescape(ValueOf(Property(name, Escape(value)))) == Normalize(value)
  {
    hide Escape, Unescape, Normalize, ValueOf;
    assert Text(":") == [COLON];
    ValueOfProperty(Text(name), Escape(value));
    UnescapeEscape(value);
  }

  /** The structured name comes back as its five components. */
  lemma NameRoundTrip(c: Contact)
    ensures UnescapeEach(SplitOn(SEMICOLON, ValueOf(StructuredName(c)))) == [Normalize(c.family), Normalize(c.given), [], [], []]
  {
    hide ValueOf, Escape, Unescape, SplitOn;
    assert Text(":") == [COLON];
    ValueOfProperty(Text("N"), NameValue(c));
    NameSplits(c);
  }

  lemma NameSplits(c: Contact)
    ensures UnescapeEach(SplitOn(SEMICOLON, NameValue(c))) == [Normalize(c.family), Normalize(c.given), [], [], []]
  {
    hide Escape, Unescape, SplitOn;
    var parts := [c.family, c.given, [], [], []];
    JoinFive(Escape(c.family), Escape(c.given));
    EscapeNothing();
    assert EscapeEach(parts) == [Escape(c.family), Escape(c.given), [], [], []];
    ListRoundTrip(SEMICOLON, parts);
    assert NormalizeEach(parts) == [Normalize(c.family), Normalize(c.given), [], [], []];
  }

  lemma EscapeNothing()
    ensures Escape([]) == []
  {
  }

  lemma JoinFive(a: Bytes, b: Bytes)
    ensures Join(SEMICOLON, [a, b, [], [], []]) == a + [SEMICOLON] + b + [SEMICOLON, SEMICOLON, SEMICOLON]
  {
    var none: Bytes := [];
    assert [none, none][1..] == [none];
    assert Join(SEMICOLON, [none, none]) == [SEMICOLON];
    assert [none, none, none][1..] == [none, none];
    assert Join(SEMICOLON, [none, none, none]) == [SEMICOLON, SEMICOLON];
    assert [b, none, none, none][1..] == [none, none, none];
    assert Join(SEMICOLON, [b, [], [], []]) == b + [SEMICOLON] + [SEMICOLON, SEMICOLON];
    assert [a, b, [], [], []][1..] == [b, [], [], []];
  }

  /** The roles come back as the list they were. */
  lemma RolesRoundTrip(c: Contact)
    requires c.roles != []
    ensures UnescapeEach(SplitOn(COMMA, ValueOf(Categories(c)[0]))) == NormalizeEach(c.roles)
  {
    hide ValueOf, SplitOn, Unescape, Join;
    assert Text(":") == [COLON];
    ValueOfProperty(Text("CATEGORIES"), Join(COMMA, EscapeEach(c.roles)));
    ListRoundTrip(COMMA, c.roles);
  }

  // --- Reading a card -----------------------------------------------------------------------------------

  /** What stands in front of the first colon of a line. */
  function NameOf(line: Bytes): Bytes { if line == [] || line[0] == COLON then [] else [line[0]] + NameOf(line[1..]) }

  /** The value of the first line with the given property name. */
  function Read(lines: seq<Bytes>, name: string): Option<Bytes> {
    if lines == [] then None
    else if NameOf(lines[0]) == Text(name) then Some(ValueOf(lines[0]))
    else Read(lines[1..], name)
  }

  lemma {:induction false} NameOfProperty(name: Bytes, value: Bytes)
    requires COLON !in name
    ensures NameOf(name + [COLON] + value) == name
  {
    var line := name + [COLON] + value;
    if name != [] {
      assert line[0] == name[0] && name[0] in name && line[1..] == name[1..] + [COLON] + value;
      NameOfProperty(name[1..], value);
    }
  }

  predicate PlainName(name: string) { forall i | 0 <= i < |name| :: name[i] != ':' && (name[i] as int) < 256 }

  lemma {:induction false} ReadAppend(a: seq<Bytes>, b: seq<Bytes>, name: string)
    ensures Read(a + b, name) == if Read(a, name).Some? then Read(a, name) else Read(b, name)
  {
    hide NameOf, ValueOf, Text;
    if a == [] {
      assert a + b == b;
    } else {
      assert (a + b)[0] == a[0] && (a + b)[1..] == a[1..] + b;
      ReadAppend(a[1..], b, name);
    }
  }

  lemma ReadOne(name: string, value: Bytes, wanted: string)
    requires PlainName(name)
    ensures Read([Property(name, value)], wanted) == if Text(name) == Text(wanted) then Some(value) else None
  {
    hide NameOf, ValueOf, Text;
    PlainNameHasNoColon(name);
    NameOfProperty(Text(name), value);
    ValueOfProperty(Text(name), value);
    assert [Property(name, value)][1..] == [];
  }

  lemma PlainNameHasNoColon(name: string)
    requires PlainName(name)
    ensures COLON !in Text(name) && Text(":") == [COLON]
  {
  }

  lemma ReadOptional(name: string, value: Bytes, wanted: string)
    requires PlainName(name)
    ensures Read(Optional(name, value), wanted) == if Text(name) == Text(wanted) && value != [] then Some(Escape(value)) else None
  {
    hide NameOf, ValueOf, Text, Escape, Property;
    if value != [] { ReadOne(name, Escape(value), wanted); }
  }

  /** Plain names are told apart by their bytes. */
  lemma {:induction false} TextIsInjective(a: string, b: string)
    requires PlainName(a) && PlainName(b)
    ensures Text(a) == Text(b) <==> a == b
  {
    if Text(a) == Text(b) {
      assert |a| == |b| by { assert |Text(a)| == |a| && |Text(b)| == |b|; }
      forall i | 0 <= i < |a| ensures a[i] == b[i] {
        assert Text(a)[i] as int == a[i] as int && Text(b)[i] as int == b[i] as int;
      }
    }
  }

  lemma ReadSame(name: string, value: Bytes, wanted: string)
    requires PlainName(name) && PlainName(wanted)
    ensures Read([Property(name, value)], wanted) == if name == wanted then Some(value) else None
    ensures Read(Optional(name, value), wanted) == if name == wanted && value != [] then Some(Escape(value)) else None
  {
    hide Read, Text, Escape, Property, Optional;
    TextIsInjective(name, wanted);
    ReadOne(name, value, wanted);
    ReadOptional(name, value, wanted);
  }

  lemma TextProperty(name: string, value: string)
    ensures Text(name + ":" + value) == Property(name, Text(value))
  {
  }

  lemma FixedProperties()
    ensures Text("BEGIN:VCARD") == Property("BEGIN", Text("VCARD")) && Text("VERSION:3.0") == Property("VERSION", Text("3.0"))
    ensures Text("END:VCARD") == Property("END", Text("VCARD"))
  {
    hide Text, Property;
    TextProperty("BEGIN", "VCARD");
    TextProperty("VERSION", "3.0");
    TextProperty("END", "VCARD");
    assert "BEGIN" + ":" + "VCARD" == "BEGIN:VCARD" && "VERSION" + ":" + "3.0" == "VERSION:3.0" && "END" + ":" + "VCARD" == "END:VCARD";
  }

  lemma ReadFrame(wanted: string)
    requires PlainName(wanted)
    ensures Read([Text("BEGIN:VCARD"), Text("VERSION:3.0")], wanted)
         == if wanted == "BEGIN" then Some(Text("VCARD")) else if wanted == "VERSION" then Some(Text("3.0")) else None
  {
    hide Read, Text, Property;
    var begin, version := Property("BEGIN", Text("VCARD")), Property("VERSION", Text("3.0"));
    FixedProperties();
    ReadSame("BEGIN", Text("VCARD"), wanted);
    ReadSame("VERSION", Text("3.0"), wanted);
    assert [begin, version] == [begin] + [version];
    ReadAppend([begin], [version], wanted);
  }

  lemma ReadIds(c: Contact, wanted: string)
    requires PlainName(wanted)
    ensures Read([Property("UID", Text("urn:uuid:") + c.uid), Property("REV", c.rev), Text("END:VCARD")], wanted)
         == if wanted == "UID" then Some(Text("urn:uuid:") + c.uid) else if wanted == "REV" then Some(c.rev)
            else if wanted == "END" then Some(Text("VCARD")) else None
  {
    hide Read, Text, Property;
    FixedProperties();
    var uid, rev, end := Property("UID", Text("urn:uuid:") + c.uid), Property("REV", c.rev), Text("END:VCARD");
    ReadSame("UID", Text("urn:uuid:") + c.uid, wanted);
    ReadSame("REV", c.rev, wanted);
    ReadSame("END", Text("VCARD"), wanted);
    assert [uid, rev, end] == [uid] + ([rev] + [end]);
    ReadAppend([uid], [rev] + [end], wanted);
    ReadAppend([rev], [end], wanted);
  }

  /** The values of N and CATEGORIES, as they are written. */
  function NameValue(c: Contact): Bytes { Escape(c.family) + [SEMICOLON] + Escape(c.given) + [SEMICOLON, SEMICOLON, SEMICOLON] }

  lemma ReadLists(c: Contact, wanted: string)
    requires PlainName(wanted)
    ensures Read([StructuredName(c)], wanted) == if wanted == "N" then Some(NameValue(c)) else None
    ensures Read(Categories(c), wanted)
         == if wanted == "CATEGORIES" && c.roles != [] then Some(Join(COMMA, EscapeEach(c.roles))) else None
  {
    hide Text, Escape, Join, Property;
    ReadSame("N", NameValue(c), wanted);
    ReadSame("CATEGORIES", Join(COMMA, EscapeEach(c.roles)), wanted);
  }

  /** What each property of a card reads as. */
  lemma CardReadsAs(c: Contact, wanted: string)
    requires PlainName(wanted)
    ensures Read(CardLines(c), wanted)
         == if wanted == "FN" && c.name != [] then Some(Escape(c.name))
            else if wanted == "N" then Some(NameValue(c))
            else if wanted == "EMAIL;TYPE=INTERNET" && c.email != [] then Some(Escape(c.email))
            else if wanted == "TEL;TYPE=VOICE" && c.phone != [] then Some(Escape(c.phone))
            else if wanted == "NOTE" && c.notes != [] then Some(Escape(c.notes))
            else if wanted == "CATEGORIES" && c.roles != [] then Some(Join(COMMA, EscapeEach(c.roles)))
            else if wanted == "UID" then Some(Text("urn:uuid:") + c.uid)
            else if wanted == "REV" then Some(c.rev)
            else if wanted == "BEGIN" || wanted == "END" then Some(Text("VCARD"))
            else if wanted == "VERSION" then Some(Text("3.0"))
            else None
  {
    hide Read, Text, Escape, Join, Property, Optional, Categories, StructuredName, NameValue;
    var frame, fn, email := [Text("BEGIN:VCARD"), Text("VERSION:3.0")], Optional("FN", c.name), Optional("EMAIL;TYPE=INTERNET", c.email);
    var tel, note := Optional("TEL;TYPE=VOICE", c.phone), Optional("NOTE", c.notes);
    var ids := [Property("UID", Text("urn:uuid:") + c.uid), Property("REV", c.rev), Text("END:VCARD")];
    ReadFrame(wanted);
    ReadSame("FN", c.name, wanted);
    ReadLists(c, wanted);
    ReadSame("EMAIL;TYPE=INTERNET", c.email, wanted);
    ReadSame("TEL;TYPE=VOICE", c.phone, wanted);
    ReadSame("NOTE", c.notes, wanted);
    ReadIds(c, wanted);
    ReadAppend(frame, fn, wanted);
    ReadAppend(frame + fn, [StructuredName(c)], wanted);
    ReadAppend(frame + fn + [StructuredName(c)], email, wanted);
    ReadAppend(frame + fn + [StructuredName(c)] + email, tel, wanted);
    ReadAppend(frame + fn + [StructuredName(c)] + email + tel, note, wanted);
    ReadAppend(frame + fn + [StructuredName(c)] + email + tel + note, Categories(c), wanted);
    ReadAppend(frame + fn + [StructuredName(c)] + email + tel + note + Categories(c), ids, wanted);
  }

  /** A property read as text: unescaped. */
  function ReadText(lines: seq<Bytes>, name: string): Option<Bytes> {
    if Read(lines, name).Some? then Some(Unescape(Read(lines, name).value)) else None
  }

  /** Present and normalised, or absent when it is empty. */
  function Present(value: Bytes): Option<Bytes> { if value == [] then None else Some(Normalize(value)) }

  lemma CardReadsTexts(c: Contact)
    ensures var card := CardLines(c);
            && ReadText(card, "FN") == Present(c.name) && ReadText(card, "EMAIL;TYPE=INTERNET") == Present(c.email)
            && ReadText(card, "TEL;TYPE=VOICE") == Present(c.phone) && ReadText(card, "NOTE") == Present(c.notes)
  {
    hide Read, Text, Escape, Unescape, Normalize, Join, SplitOn, CardLines;
    CardReadsAs(c, "FN");
    CardReadsAs(c, "EMAIL;TYPE=INTERNET");
    CardReadsAs(c, "TEL;TYPE=VOICE");
    CardReadsAs(c, "NOTE");
    UnescapeEscape(c.name);
    UnescapeEscape(c.email);
    UnescapeEscape(c.phone);
    UnescapeEscape(c.notes);
  }

  /** A card read back gives the contact: each property its own field, newlines normalised, and what is
      empty is absent. */
  lemma CardReadsBack(c: Contact)
    ensures var card := CardLines(c);
            && ReadText(card, "FN") == Present(c.name)
            && ReadText(card, "EMAIL;TYPE=INTERNET") == Present(c.email)
            && ReadText(card, "TEL;TYPE=VOICE") == Present(c.phone)
            && ReadText(card, "NOTE") == Present(c.notes)
            && Read(card, "UID") == Some(Text("urn:uuid:") + c.uid) && Read(card, "REV") == Some(c.rev)
            && Read(card, "N").Some?
            && UnescapeEach(SplitOn(SEMICOLON, Read(card, "N").value)) == [Normalize(c.family), Normalize(c.given), [], [], []]
            && (if c.roles == [] then Read(card, "CATEGORIES") == None
                else && Read(card, "CATEGORIES").Some?
                     && UnescapeEach(SplitOn(COMMA, Read(card, "CATEGORIES").value)) == NormalizeEach(c.roles))
  {
    hide Read, ReadText, Text, Escape, Unescape, Normalize, Join, SplitOn, CardLines;
    CardReadsTexts(c);
    CardReadsAs(c, "N");
    CardReadsAs(c, "CATEGORIES");
    CardReadsAs(c, "UID");
    CardReadsAs(c, "REV");
    NameSplits(c);
    if c.roles != [] { ListRoundTrip(COMMA, c.roles); }
  }
}
