// LIKE patterns: the escaping step of the search compiler and PostgreSQL's
// matcher with backslash as the escape character.

module Like {

  // --- escapeLike -----------------------------------------------------------

  /** One pass of the source's string replacer: each metacharacter of LIKE gets a backslash. */
  function EscapeMeta(s: string): (r: string)
    ensures forall i | 0 <= i < |s| && s[i] == '*' :: '*' in r
  {
    if s == [] then []
    else (if s[0] in {'\\', '%', '_'} then ['\\', s[0]] else [s[0]]) + EscapeMeta(s[1..])
  }

  /** The second pass: the user's wildcard becomes LIKE's. */
  function StarToPercent(s: string): (r: string)
    ensures |r| == |s| && '*' !in r
    ensures forall i | 0 <= i < |s| :: r[i] == if s[i] == '*' then '%' else s[i]
  {
    if s == [] then [] else [if s[0] == '*' then '%' else s[0]] + StarToPercent(s[1..])
  }

  function EscapeLike(s: string): string {
    StarToPercent(EscapeMeta(s))
  }

  /** The pattern bound for a `contains` condition. */
  function ContainsPattern(v: string): string {
    "%" + EscapeLike(v) + "%"
  }

  // --- The matcher ----------------------------------------------------------

  /** PostgreSQL's LIKE; a pattern that ends in a lone escape matches nothing. */
  predicate Matches(t: string, p: string)
    decreases |p|, |t|
  {
    if p == [] then t == []
    else if p[0] == '%' then Matches(t, p[1..]) || (t != [] && Matches(t[1..], p))
    else if p[0] == '\\' then |p| > 1 && t != [] && t[0] == p[1] && Matches(t[1..], p[2..])
    else t != [] && (p[0] == '_' || t[0] == p[0]) && Matches(t[1..], p[1..])
  }

  // --- The reference meaning ------------------------------------------------

  /** `v` as a glob: `*` is any run, every other character is itself. */
  ghost predicate Glob(t: string, v: string)
    decreases |v|
  {
    if v == [] then t == []
    else if v[0] == '*' then exists k | 0 <= k <= |t| :: Glob(t[k..], v[1..])
    else t != [] && t[0] == v[0] && Glob(t[1..], v[1..])
  }

  /** Some substring of `t` matches the glob `v`. */
  ghost predicate GlobInside(t: string, v: string) {
    exists i, j | 0 <= i <= j <= |t| :: Glob(t[i..j], v)
  }

  // --- escapeLike is the glob translation ------------------------------------

  lemma StarToPercentConcat(a: string, b: string)
    ensures StarToPercent(a + b) == StarToPercent(a) + StarToPercent(b)
  {
  }

  /** What the two passes make of one character. */
  function EscapeChar(c: char): string {
    if c in {'\\', '%', '_'} then ['\\', c] else if c == '*' then "%" else [c]
  }

  /** The two replacement passes act character by character. */
  lemma EscapeLikeStep(v: string)
    requires v != []
    ensures EscapeLike(v) == EscapeChar(v[0]) + EscapeLike(v[1..])
  {
    var head := if v[0] in {'\\', '%', '_'} then ['\\', v[0]] else [v[0]];
    var rest := EscapeMeta(v[1..]);
    assert EscapeMeta(v) == head + rest;
    StarToPercentConcat(head, rest);
  }

  /** A leading `%` skips any prefix of the text. */
  lemma {:induction false} PercentSkips(t: string, p: string)
    ensures Matches(t, "%" + p) <==> exists k | 0 <= k <= |t| :: Matches(t[k..], p)
    decreases |t|
  {
    assert ("%" + p)[1..] == p;
    assert t[0..] == t;
    if t != [] {
      PercentSkips(t[1..], p);
      if k :| 0 <= k <= |t| && Matches(t[k..], p) {
        if k > 0 { assert t[1..][k - 1..] == t[k..]; }
      }
      if k :| 0 <= k <= |t[1..]| && Matches(t[1..][k..], p) {
        assert t[1..][k..] == t[k + 1..];
      }
    }
  }

  /** An escaped value followed by `%` matches exactly the texts with a prefix the glob matches. */
  lemma {:induction false} EscapedThenPercent(t: string, v: string)
    ensures Matches(t, EscapeLike(v) + "%") <==> exists j | 0 <= j <= |t| :: Glob(t[..j], v)
    decreases |v|
  {
    if v == [] {
      assert EscapeLike(v) + "%" == "%" + [];
      PercentSkips(t, []);
      assert t[|t|..] == [] && t[..0] == [];
      assert Glob(t[..0], v);
    } else {
      EscapeLikeStep(v);
      var rest := EscapeLike(v[1..]) + "%";
      assert EscapeLike(v) + "%" == EscapeChar(v[0]) + rest;
      if v[0] == '*' {
        PercentSkips(t, rest);
        forall k | 0 <= k <= |t| {
          EscapedThenPercent(t[k..], v[1..]);
        }
        StarPrefix(t, v);
      } else {
        EscapedCharSteps(t, v[0], rest);
        if t == [] {
          assert forall j | 0 <= j <= |t| :: t[..j] == [];
        } else {
          EscapedThenPercent(t[1..], v[1..]);
          LiteralPrefix(t, v);
        }
      }
    }
  }

  /** An escaped literal consumes exactly that character. */
  lemma EscapedCharSteps(t: string, c: char, rest: string)
    requires c != '*'
    ensures Matches(t, EscapeChar(c) + rest) <==> t != [] && t[0] == c && Matches(t[1..], rest)
  {
    var p := EscapeChar(c) + rest;
    if |EscapeChar(c)| == 2 {
      assert p[0] == '\\' && p[1] == c && p[2..] == rest;
    } else {
      assert p[0] == c && p[1..] == rest;
    }
  }

  lemma StarPrefix(t: string, v: string)
    requires v != [] && v[0] == '*'
    ensures (exists k, j | 0 <= k <= |t| && 0 <= j <= |t[k..]| :: Glob(t[k..][..j], v[1..]))
            <==> (exists j | 0 <= j <= |t| :: Glob(t[..j], v))
  {
    if k, j :| 0 <= k <= |t| && 0 <= j <= |t[k..]| && Glob(t[k..][..j], v[1..]) {
      assert t[k..][..j] == t[..k + j][k..];
      assert Glob(t[..k + j], v);
    }
    if j :| 0 <= j <= |t| && Glob(t[..j], v) {
      var k :| 0 <= k <= |t[..j]| && Glob(t[..j][k..], v[1..]);
      assert t[..j][k..] == t[k..][..j - k];
    }
  }

  lemma LiteralPrefix(t: string, v: string)
    requires t != [] && v != [] && v[0] != '*'
    ensures (t[0] == v[0] && exists j | 0 <= j <= |t[1..]| :: Glob(t[1..][..j], v[1..]))
            <==> (exists j | 0 <= j <= |t| :: Glob(t[..j], v))
  {
    if j :| t[0] == v[0] && 0 <= j <= |t[1..]| && Glob(t[1..][..j], v[1..]) {
      assert t[..j + 1][1..] == t[1..][..j];
      assert Glob(t[..j + 1], v);
    }
    if j :| 0 <= j <= |t| && Glob(t[..j], v) {
      assert j > 0 && t[..j][1..] == t[1..][..j - 1];
    }
  }

  /** The pattern a `contains` condition binds matches a text exactly when some
      substring of it matches the value as a glob. */
  lemma ContainsPatternCorrect(t: string, v: string)
    ensures Matches(t, ContainsPattern(v)) <==> GlobInside(t, v)
  {
    var rest := EscapeLike(v) + "%";
    assert ContainsPattern(v) == "%" + rest;
    PercentSkips(t, rest);
    forall i | 0 <= i <= |t|
      ensures Matches(t[i..], rest) <==> exists j | i <= j <= |t| :: Glob(t[i..j], v)
    {
      EscapedThenPercent(t[i..], v);
      if j :| 0 <= j <= |t[i..]| && Glob(t[i..][..j], v) {
        assert t[i..][..j] == t[i..i + j];
      }
      if j :| i <= j <= |t| && Glob(t[i..j], v) {
        assert t[i..][..j - i] == t[i..j];
      }
    }
    if Matches(t, ContainsPattern(v)) {
      var i :| 0 <= i <= |t| && Matches(t[i..], rest);
      var j :| i <= j <= |t| && Glob(t[i..j], v);
    }
    if GlobInside(t, v) {
      var i, j :| 0 <= i <= j <= |t| && Glob(t[i..j], v);
      assert Matches(t[i..], rest);
    }
  }

  // --- Case-insensitive forms -------------------------------------------------

  predicate IsMeta(c: char) { c in {'\\', '%', '_', '*'} }

  /** Metacharacters are caseless: none is folded, and nothing is folded onto one. */
  ghost predicate KeepsMeta(f: char -> char) {
    forall c | IsMeta(c) || IsMeta(f(c)) :: f(c) == c
  }

  /** How a database folds case, character by character, in whatever locale. */
  type Folding = f: char -> char | KeepsMeta(f) ghost witness (c: char) => c

  function Fold(f: char -> char, s: string): (r: string)
    ensures |r| == |s| && forall i | 0 <= i < |s| :: r[i] == f(s[i])
  {
    seq(|s|, i requires 0 <= i < |s| => f(s[i]))
  }

  /** ASCII lower-casing, which the parser uses for tags and keywords. */
  function LowerChar(c: char): char {
    if 'A' <= c <= 'Z' then c - 'A' + 'a' else c
  }

  function Lower(s: string): (r: string)
    ensures |r| == |s| && forall i | 0 <= i < |s| :: r[i] == LowerChar(s[i])
  {
    Fold(LowerChar, s)
  }

  /** ILIKE folds both sides before matching. */
  predicate IMatches(f: Folding, t: string, p: string) {
    Matches(Fold(f, t), Fold(f, p))
  }

  lemma FoldConcat(f: Folding, a: string, b: string)
    ensures Fold(f, a + b) == Fold(f, a) + Fold(f, b)
  {
  }

  lemma FoldEscapeChar(f: Folding, c: char)
    ensures Fold(f, EscapeChar(c)) == EscapeChar(f(c))
  {
    assert IsMeta('%') && IsMeta('\\');
    assert f('%') == '%' && f('\\') == '\\';
    assert IsMeta(c) || IsMeta(f(c)) ==> f(c) == c;
  }

  lemma {:induction false} EscapeCommutesWithFold(f: Folding, v: string)
    ensures Fold(f, EscapeLike(v)) == EscapeLike(Fold(f, v))
  {
    if v == [] {
      assert Fold(f, EscapeLike(v)) == [];
    } else {
      EscapeLikeStep(v);
      EscapeLikeStep(Fold(f, v));
      FoldConcat(f, EscapeChar(v[0]), EscapeLike(v[1..]));
      FoldEscapeChar(f, v[0]);
      EscapeCommutesWithFold(f, v[1..]);
      assert Fold(f, v)[1..] == Fold(f, v[1..]);
    }
  }

  /** Case-insensitive `contains` with wildcards, as the field documentation promises it,
      for every way of folding case. */
  lemma ILikeContains(f: Folding, t: string, v: string)
    ensures IMatches(f, t, ContainsPattern(v)) <==> GlobInside(Fold(f, t), Fold(f, v))
  {
    EscapeCommutesWithFold(f, v);
    assert IsMeta('%') && f('%') == '%';
    assert Fold(f, ContainsPattern(v)) == ContainsPattern(Fold(f, v));
    ContainsPatternCorrect(Fold(f, t), Fold(f, v));
  }
}
