// Printing a query tree and parsing it back, and what the texts that parse look like.

module SearchRoundTrip {
  import opened Common
  import opened Like
  import opened SearchSyntax
  import opened SearchParser
  import opened SearchGrammar
  import opened SearchReading

  // --- The printer ------------------------------------------------------------------

  /** Backslash before a quote and before a backslash. */
  function EscapeQuoted(v: string): string {
    if v == [] then []
    else (if v[0] in {'\\', '"'} then ['\\', v[0]] else [v[0]]) + EscapeQuoted(v[1..])
  }

  function Quote(v: string): Writing { InQuotes('"', EscapeQuoted(v)) }

  /** A tree as one operand: groups in parentheses, values quoted, connectives spelled out. */
  function Spell(n: Node): Factor
    requires Proper(n)
    decreases n, 1
  {
    match n
    case And(cs) => Paren(Single(SpellAnd(cs, "")), "")
    case Or(cs) => Paren(SpellOr(cs, ""), "")
    case Not(c) => Negated("NOT", " ", Spell(c))
    case Leaf(Tagged(f, op, v)) => TagTerm(f.name, f, op, v, Quote(v))
    case Leaf(FreeText(t)) => Term(t, Quote(t))
  }

  function SpellAnd(cs: seq<Node>, gap: string): AndExpr
    requires cs != [] && ProperAll(cs)
    decreases cs, 0
  {
    if |cs| == 1 then One(gap, Spell(cs[0]))
    else AndMore(gap, Spell(cs[0]), Joined(" ", "AND"), SpellAnd(cs[1..], " "))
  }

  function SpellOr(cs: seq<Node>, gap: string): OrExpr
    requires cs != [] && ProperAll(cs)
    decreases cs, 0
  {
    if |cs| == 1 then Single(One(gap, Spell(cs[0])))
    else OrMore(One(gap, Spell(cs[0])), " ", "OR", SpellOr(cs[1..], " "))
  }

  /** Connectives have two operands or more. */
  predicate Proper(n: Node)
    decreases n, 1
  {
    match n
    case And(cs) => |cs| >= 2 && ProperAll(cs)
    case Or(cs) => |cs| >= 2 && ProperAll(cs)
    case Not(c) => Proper(c)
    case Leaf(_) => true
  }

  predicate ProperAll(cs: seq<Node>)
    decreases cs, 0
  {
    cs == [] || (Proper(cs[0]) && ProperAll(cs[1..]))
  }

  function Print(n: Node): string
    requires Proper(n)
  {
    FactorText(Spell(n))
  }

  /** A tag written with letters that the index resolves to itself. */
  predicate Resolves(g: Language, f: Field) {
    f.name != "" && Letters(f.name) && LookupField(g, f.name) == Some(f)
  }

  /** Every indexed tag resolves under its own name. */
  predicate ClosedIndex(g: Language) {
    forall k | k in g.index :: Resolves(g, g.index[k])
  }

  lemma {:induction false} EscapedMeans(v: string)
    ensures Means(EscapeQuoted(v), '"', v)
  {
    if v != "" {
      var head := if v[0] in {'\\', '"'} then ['\\', v[0]] else [v[0]];
      assert EscapeQuoted(v)[|head|..] == EscapeQuoted(v[1..]);
      EscapedMeans(v[1..]);
    }
  }

  lemma {:induction false} ShapedIsProper(g: Language, n: Node)
    requires Shaped(g, n)
    ensures Proper(n)
    decreases n, 1
  {
    match n
    case And(cs) => ShapedAllIsProper(g, cs);
    case Or(cs) => ShapedAllIsProper(g, cs);
    case Not(c) => ShapedIsProper(g, c);
    case Leaf(_) =>
  }

  lemma {:induction false} ShapedAllIsProper(g: Language, ns: seq<Node>)
    requires ShapedAll(g, ns)
    ensures ProperAll(ns)
    decreases ns, 0
  {
    if ns != [] {
      ShapedIsProper(g, ns[0]);
      ShapedAllIsProper(g, ns[1..]);
    }
  }

  lemma TagSpellsClear(g: Language, f: Field, op: Op, v: string)
    requires ClosedIndex(g) && f in g.index.Values && v != "" && TypedField(g.dec, f, op, v)
    ensures var o := TagTerm(f.name, f, op, v, Quote(v)); Lexical(g, o) && Clear(o)
  {
    hide Means, TypedField, EscapeQuoted;
    EscapedMeans(v);
  }

  /** What is printed is a clear spelling of the tree. */
  lemma {:induction false} SpellIsClear(g: Language, n: Node)
    requires ClosedIndex(g) && Shaped(g, n) && Proper(n)
    ensures Lexical(g, Spell(n)) && Clear(Spell(n)) && FactorTree(Spell(n)) == n
    decreases n, 1
  {
    hide ClosedIndex, TypedField, Means, EscapeQuoted;
    match n
    case And(cs) => SpellAndIsClear(g, cs, "");
    case Or(cs) => SpellOrIsClear(g, cs, "");
    case Not(c) => SpellIsClear(g, c);
    case Leaf(Tagged(f, op, v)) => TagSpellsClear(g, f, op, v);
    case Leaf(FreeText(t)) => EscapedMeans(t);
  }

  lemma {:induction false} SpellAndIsClear(g: Language, cs: seq<Node>, gap: string)
    requires ClosedIndex(g) && cs != [] && ShapedAll(g, cs) && ProperAll(cs) && Gap(gap)
    ensures var e := SpellAnd(cs, gap); LexicalAnd(g, e) && ClearAnd(e) && AndItems(e) == cs && e.gap == gap
    decreases cs, 0
  {
    hide Lexical, Clear, FactorTree, Spell, Shaped, ClosedIndex, Proper;
    SpellIsClear(g, cs[0]);
    if |cs| == 1 {
      assert cs == [cs[0]];
    } else {
      SpellAndIsClear(g, cs[1..], " ");
      assert cs == [cs[0]] + cs[1..];
    }
  }

  lemma {:induction false} SpellOrIsClear(g: Language, cs: seq<Node>, gap: string)
    requires ClosedIndex(g) && cs != [] && ShapedAll(g, cs) && ProperAll(cs) && Gap(gap)
    ensures var e := SpellOr(cs, gap); LexicalOr(g, e) && ClearOr(e) && OrItems(e) == cs && OrHeadGap(e) == gap
    decreases cs, 0
  {
    hide Lexical, Clear, FactorTree, Spell, Shaped, ClosedIndex, Proper;
    SpellIsClear(g, cs[0]);
    if |cs| == 1 {
      assert cs == [cs[0]];
    } else {
      SpellOrIsClear(g, cs[1..], " ");
      assert cs == [cs[0]] + cs[1..];
    }
  }

  /** Parsing a printed tree within the limits gives the tree back. */
  lemma PrintParseRoundTrip(g: Language, n: Node)
    requires ClosedIndex(g) && Shaped(g, n) && Proper(n)
    requires |Print(n)| <= MAX_QUERY_LENGTH
    requires Terms(n) <= MAX_QUERY_TERMS && FreeTerms(n) <= MAX_FREE_TEXT_TERMS
    ensures Parse(g, Print(n)) == Query(n)
  {
    hide Lexical, Clear, Shaped, ClosedIndex, Parse;
    SpellIsClear(g, n);
    SingletonCounts(n);
    var e := Single(One("", Spell(n)));
    assert OrText(e) + "" == Print(n);
    SpellingParses(g, e, "");
  }

  /** Whatever spelling a query came in, printing its tree and parsing that again
      changes nothing, unless the canonical spelling is too long. */
  lemma CanonicalSpelling(g: Language, s: string)
    requires ClosedIndex(g) && Parse(g, s).Query?
    ensures var q := Parse(g, s).root;
            Proper(q) && Parse(g, Print(q)) == if |Print(q)| <= MAX_QUERY_LENGTH then Query(q) else Refused(QueryTooLong)
  {
    var q := Parse(g, s).root;
    ParseWithinBudgets(g, s);
    ShapedIsProper(g, q);
    if |Print(q)| <= MAX_QUERY_LENGTH {
      PrintParseRoundTrip(g, q);
    }
  }

  // --- Whatever parses is a spelling ------------------------------------------------------

  lemma Cut(s: string, i: nat, j: nat, k: nat)
    requires i <= j <= k <= |s|
    ensures s[i..k] == s[i..j] + s[j..k]
  {
  }

  lemma SpaceIsGap(s: string, p: nat)
    requires p <= |s|
    ensures Gap(s[p..SkipSpace(s, p)])
  {
  }

  lemma {:induction false} WordIsPlain(s: string, p: nat)
    requires p <= |s|
    ensures forall i | p <= i < WordEnd(s, p) :: !EndsWord(s[i])
    decreases |s| - p
  {
    if p < |s| && !EndsWord(s[p]) { WordIsPlain(s, p + 1); }
  }

  lemma {:induction false} ValueIsPlain(s: string, p: nat)
    requires p <= |s|
    ensures forall i | p <= i < ValueEnd(s, p) :: !EndsValue(s[i])
    decreases |s| - p
  {
    if p < |s| && !EndsValue(s[p]) { ValueIsPlain(s, p + 1); }
  }

  lemma BareIsPlain(s: string, p: nat)
    requires p < |s| && !IsQuote(s[p])
    ensures var w := s[p..WordEnd(s, p)]; w != "" ==> PlainWord(w)
    ensures var v := s[p..ValueEnd(s, p)]; v != "" ==> PlainValue(v)
  {
    hide WordEnd, ValueEnd;
    WordIsPlain(s, p);
    ValueIsPlain(s, p);
  }

  lemma MeansOneMore(s: string, p: nat, e: nat, quote: char, v: string)
    requires p < e <= |s| && if s[p] == '\\' then p + 2 <= e && Means(s[p + 2..e], quote, v) else s[p] != quote && Means(s[p + 1..e], quote, v)
    ensures Means(s[p..e], quote, [if s[p] == '\\' then s[p + 1] else s[p]] + v)
  {
    var raw, text := s[p..e], [if s[p] == '\\' then s[p + 1] else s[p]] + v;
    assert text[1..] == v && raw[1..] == s[p + 1..e];
    assert s[p] == '\\' ==> raw[2..] == s[p + 2..e];
  }

  /** A text that reads as quoted stands there with its escapes. */
  lemma {:induction false} QuotedIsSpelled(s: string, p: nat, quote: char)
    requires p <= |s| && quote != '\\' && Quoted(s, p, quote).Some?
    ensures var (v, e) := Quoted(s, p, quote).value;
            p < e <= |s| && Means(s[p..e - 1], quote, v) && s[e - 1] == quote
    decreases |s| - p
  {
    var e := Quoted(s, p, quote).value.1;
    if s[p] == '\\' {
      hide Means;
      QuotedIsSpelled(s, p + 2, quote);
      MeansOneMore(s, p, e - 1, quote, Quoted(s, p + 2, quote).value.0);
    } else if s[p] != quote {
      hide Means;
      QuotedIsSpelled(s, p + 1, quote);
      MeansOneMore(s, p, e - 1, quote, Quoted(s, p + 1, quote).value.0);
    }
  }

  lemma QuotesAreSpelled(s: string, p: nat) returns (w: Writing)
    requires p < |s| && IsQuote(s[p]) && Quoted(s, p + 1, s[p]).Some?
    ensures var (v, e) := Quoted(s, p + 1, s[p]).value; p < e <= |s| && w.InQuotes? && QuotedAs(v, w) && s[p..e] == Written(v, w)
  {
    hide Quoted, Means;
    var (v, e) := Quoted(s, p + 1, s[p]).value;
    QuotedIsSpelled(s, p + 1, s[p]);
    w := InQuotes(s[p], s[p + 1..e - 1]);
    assert s[p..e] == [s[p]] + (s[p + 1..e - 1] + [s[e - 1]]);
  }

  lemma ValueIsSpelled(s: string, p: nat) returns (w: Writing)
    requires p <= |s| && ReadValue(s, p).Some? && ReadValue(s, p).value.0 != ""
    ensures var (v, e) := ReadValue(s, p).value;
            p <= e <= |s| && s[p..e] == Written(v, w) && if w.Bare? then PlainValue(v) else QuotedAs(v, w)
  {
    hide Quoted, QuotedAs, ValueEnd, PlainValue;
    if p < |s| && IsQuote(s[p]) {
      w := QuotesAreSpelled(s, p);
    } else {
      w := Bare;
      BareIsPlain(s, p);
    }
  }

  lemma OperatorIsSpelled(s: string, p: nat)
    requires p <= |s| && OperatorAt(s, p).Some?
    ensures var op := OperatorAt(s, p).value; p + |OpText(op)| <= |s| && s[p..p + |OpText(op)|] == OpText(op)
  {
    assert p < |s| ==> s[p..p + 1] == [s[p]];
  }

  lemma ConditionIsSpelled(g: Language, s: string, st: State) returns (o: Factor)
    requires st.pos < |s| && ParseCondition(g, s, st).Got?
    ensures var r := ParseCondition(g, s, st);
            Lexical(g, o) && s[st.pos..r.st.pos] == FactorText(o) && Some(FactorTree(o)) == r.node
  {
    hide Quoted, QuotedAs, PlainWord, PlainValue, WordEnd, OperatorAt, ReadValue, TypedField, OpText;
    var p := st.pos;
    if IsQuote(s[p]) {
      var w := QuotesAreSpelled(s, p);
      o := Term(Quoted(s, p + 1, s[p]).value.0, w);
    } else {
      var q := WordEnd(s, p);
      BareIsPlain(s, p);
      if OperatorAt(s, q).None? {
        o := Term(s[p..q], Bare);
      } else {
        var op := OperatorAt(s, q).value;
        var m := q + |OpText(op)|;
        OperatorIsSpelled(s, q);
        var w := ValueIsSpelled(s, m);
        var (v, e) := ReadValue(s, m).value;
        o := TagTerm(s[p..q], LookupField(g, s[p..q]).value, op, v, w);
        Cut(s, p, q, e);
        Cut(s, q, m, e);
      }
    }
  }

  /** The token that starts a negation. */
  lemma NegationIsSpelled(s: string, p: nat)
    requires p <= |s| && StartAt(s, p).Negation?
    ensures var m, q := SkipSpace(s, p), StartAt(s, p).at;
            m <= q <= |s| && Gap(s[p..m]) && (s[m..q] == "-" || IsWord(s[m..q], "NOT"))
  {
    SpaceIsGap(s, p);
  }

  lemma OtherStarts(s: string, p: nat)
    requires p <= |s| && !StartAt(s, p).Negation?
    ensures StartAt(s, p).at == SkipSpace(s, p) && Gap(s[p..SkipSpace(s, p)])
    ensures StartAt(s, p).Group? ==> s[StartAt(s, p).at] == '('
  {
    SpaceIsGap(s, p);
  }

  /** An operand that parses is a spelling of its tree. */
  lemma {:induction false} UnaryIsSpelled(g: Language, s: string, st: State) returns (gap: string, o: Factor)
    requires st.pos <= |s| && ParseUnary(g, s, st).Got? && ParseUnary(g, s, st).node.Some?
    ensures var r := ParseUnary(g, s, st);
            Gap(gap) && Lexical(g, o) && s[st.pos..r.st.pos] == gap + FactorText(o) && FactorTree(o) == r.node.value
    decreases |s| - st.pos, 1
  {
    hide ParseCondition, ParseOr, Gap, Lexical, FactorText, FactorTree, SkipSpace;
    var p, e := SkipSpace(s, st.pos), ParseUnary(g, s, st).st.pos;
    gap := s[st.pos..p];
    match StartAt(s, st.pos)
    case Negation(q) => o := NegatedIsSpelled(g, s, st, q);
    case Group(q) =>
      OtherStarts(s, st.pos);
      o := GroupIsSpelled(g, s, st, q);
      Cut(s, st.pos, q, e);
    case Condition(q) =>
      OtherStarts(s, st.pos);
      o := ConditionIsSpelled(g, s, st.(pos := q));
      Cut(s, st.pos, q, e);
  }

  lemma {:induction false} NegatedIsSpelled(g: Language, s: string, st: State, q: nat) returns (o: Factor)
    requires st.pos <= |s| && StartAt(s, st.pos) == Negation(q) && ParseUnary(g, s, st).Got? && ParseUnary(g, s, st).node.Some?
    ensures var r, p := ParseUnary(g, s, st), SkipSpace(s, st.pos);
            && Gap(s[st.pos..p]) && Lexical(g, o) && FactorTree(o) == r.node.value
            && s[st.pos..r.st.pos] == s[st.pos..p] + FactorText(o)
    decreases |s| - st.pos, 0
  {
    hide StartAt, Gap, SkipSpace, IsWord;
    var p := SkipSpace(s, st.pos);
    NegationIsSpelled(s, st.pos);
    var gap, inner := UnaryIsSpelled(g, s, st.(pos := q));
    var e := ParseUnary(g, s, st).st.pos;
    o := Negated(s[p..q], gap, inner);
    Cut(s, st.pos, p, e);
    Cut(s, p, q, e);
  }

  lemma {:induction false} GroupIsSpelled(g: Language, s: string, st: State, q: nat) returns (o: Factor)
    requires st.pos <= |s| && StartAt(s, st.pos) == Group(q) && ParseUnary(g, s, st).Got? && s[q] == '('
    ensures var r := ParseUnary(g, s, st);
            q < r.st.pos <= |s| && Lexical(g, o) && Some(FactorTree(o)) == r.node && s[q..r.st.pos] == FactorText(o)
    decreases |s| - st.pos, 0
  {
    hide StartAt, Gap, ParseOr, FactorText, OrOf, OrItems, OrText, LexicalOr;
    var r := ParseOr(g, s, st.(pos := q + 1));
    var body, tail := OrIsSpelled(g, s, st.(pos := q + 1));
    var m := SkipSpace(s, r.st.pos);
    SpaceIsGap(s, r.st.pos);
    GapsJoin(tail, s[r.st.pos..m]);
    o := Paren(body, tail + s[r.st.pos..m]);
    GroupText(s, q, r.st.pos, m, body, tail);
  }

  lemma GroupText(s: string, q: nat, e: nat, m: nat, body: OrExpr, tail: string)
    requires q < e <= m < |s| && s[q] == '(' && s[m] == ')' && s[q + 1..e] == OrText(body) + tail
    ensures s[q..m + 1] == FactorText(Paren(body, tail + s[e..m]))
  {
    hide OrText;
    var b, gap := OrText(body), s[e..m];
    assert s[q..m + 1] == "(" + (s[q + 1..e] + (gap + ")"));
    Regroup(b, tail, gap + ")");
    Regroup(tail, gap, ")");
  }

  lemma GapsJoin(a: string, b: string)
    requires Gap(a) && Gap(b)
    ensures Gap(a + b)
  {
  }


  /** Where parseAnd leaves off: at an OR, at a closing parenthesis or at the end. */
  predicate ListEnds(s: string, p: nat) {
    p <= |s| && SkipSpace(s, p) == p && (Closed(s, p) || KeywordAt(s, p, "OR"))
  }

  lemma LinkIsSpelled(s: string, p: nat) returns (j: Joint, lead: string)
    requires p <= |s| && AndLink(s, p).Continues?
    ensures p <= AndLink(s, p).at <= |s| && LexicalJoint(j) && Gap(lead) && s[p..AndLink(s, p).at] == JointText(j) + lead
  {
    var m, q := SkipSpace(s, p), AndLink(s, p).at;
    SpaceIsGap(s, p);
    if AndLink(s, p).demanded {
      j, lead := Joined(s[p..m], s[m..q]), "";
      Cut(s, p, m, q);
    } else {
      j, lead := Adjacent, s[p..m];
    }
  }

  lemma StopIsSpelled(g: Language, s: string, st: State)
    requires st.pos <= |s| && AndOperand(g, s, st).Stop?
    ensures var st' := AndOperand(g, s, st).st;
            st.pos <= st'.pos && ListEnds(s, st'.pos) && Gap(s[st.pos..st'.pos]) && st' == st.(pos := st'.pos)
  {
    hide ParseCondition, ParseOr, KeywordAt, SymbolAt;
    SpaceSkipped(s, st.pos);
    SpaceIsGap(s, st.pos);
  }

  /** The operands behind the first of an AND list. */
  datatype AndTail = AndDone | AndGoesOn(joint: Joint, rest: AndExpr)

  function AndTailText(t: AndTail): string { match t case AndDone => "" case AndGoesOn(j, e) => JointText(j) + AndText(e) }

  function AndTailItems(t: AndTail): seq<Node> { match t case AndDone => [] case AndGoesOn(_, e) => AndItems(e) }

  predicate LexicalTail(g: Language, t: AndTail) { t.AndGoesOn? ==> LexicalJoint(t.joint) && LexicalAnd(g, t.rest) }

  function AndFrom(gap: string, o: Factor, t: AndTail): AndExpr {
    match t case AndDone => One(gap, o) case AndGoesOn(j, e) => AndMore(gap, o, j, e)
  }

  lemma AndFromIs(g: Language, gap: string, o: Factor, t: AndTail)
    requires Gap(gap) && Lexical(g, o) && LexicalTail(g, t)
    ensures var e := AndFrom(gap, o, t);
            && LexicalAnd(g, e) && AndText(e) == gap + (FactorText(o) + AndTailText(t)) && AndItems(e) == [FactorTree(o)] + AndTailItems(t)
  {
  }

  lemma {:induction false} AndIsSpelled(g: Language, s: string, st: State) returns (e: AndExpr, tail: string)
    requires st.pos <= |s| && ParseAnd(g, s, st).Got? && ParseAnd(g, s, st).node.Some?
    ensures var r := ParseAnd(g, s, st);
            && st.pos <= r.st.pos && LexicalAnd(g, e) && Gap(tail) && s[st.pos..r.st.pos] == AndText(e) + tail
            && r.node == Some(AndOf(AndItems(e))) && ListEnds(s, r.st.pos)
    decreases |s| - st.pos, 4
  {
    hide AndTailText, AndTailItems, LexicalTail, ParseUnary, AndRest, Gap, Lexical, FactorText, FactorTree, ListEnds, AndOf, LexicalAnd, AndText, AndItems;
    var u := ParseUnary(g, s, st);
    var gap, o := UnaryIsSpelled(g, s, st);
    var t;
    t, tail := AndRestIsSpelled(g, s, [u.node.value], u.st);
    e := AndFrom(gap, o, t);
    AndFromIs(g, gap, o, t);
    Cut(s, st.pos, u.st.pos, ParseAnd(g, s, st).st.pos);
    Regroup(gap + FactorText(o), AndTailText(t), tail);
    Regroup(gap, FactorText(o), AndTailText(t));
  }

  lemma {:induction false} AndRestIsSpelled(g: Language, s: string, done: seq<Node>, st: State) returns (t: AndTail, tail: string)
    requires done != [] && st.pos <= |s| && AndRest(g, s, done, st).Got?
    ensures var r := AndRest(g, s, done, st);
            && st.pos <= r.st.pos && LexicalTail(g, t) && Gap(tail) && s[st.pos..r.st.pos] == AndTailText(t) + tail
            && r.node == Some(AndOf(done + AndTailItems(t))) && ListEnds(s, r.st.pos)
    decreases |s| - st.pos, 3
  {
    hide Gap, ListEnds, AndOf, LexicalTail, AndTailText, AndTailItems, AndOperand;
    var next := AndOperand(g, s, st);
    if next.Stop? {
      StopIsSpelled(g, s, st);
      t, tail := AndDone, s[st.pos..next.st.pos];
      NothingBehind(g, done, tail);
    } else {
      var j, e := PassIsSpelled(g, s, st);
      assert next.Next?;
      var t';
      t', tail := AndRestIsSpelled(g, s, done + [next.node], next.st);
      t := Joins(g, j, e.gap, e.factor, t');
      Cut(s, st.pos, next.st.pos, AndRest(g, s, done, st).st.pos);
      Regroup(JointText(j), AndText(e), AndTailText(t') + tail);
      Regroup(done, [next.node], AndTailItems(t'));
      Regroup(JointText(j) + AndText(e), AndTailText(t'), tail);
    }
  }

  lemma NothingBehind(g: Language, done: seq<Node>, tail: string)
    ensures LexicalTail(g, AndDone) && AndTailText(AndDone) + tail == tail && done + AndTailItems(AndDone) == done
  {
  }

  lemma Joins(g: Language, j: Joint, gap: string, o: Factor, t: AndTail) returns (more: AndTail)
    requires LexicalJoint(j) && Gap(gap) && Lexical(g, o) && LexicalTail(g, t)
    ensures LexicalTail(g, more) && AndTailText(more) == JointText(j) + (gap + FactorText(o)) + AndTailText(t)
    ensures AndTailItems(more) == [FactorTree(o)] + AndTailItems(t)
  {
    hide Gap, Lexical, FactorText, FactorTree, LexicalAnd, AndText, AndItems, AndTailText, AndTailItems, LexicalJoint;
    AndFromIs(g, gap, o, t);
    more := AndGoesOn(j, AndFrom(gap, o, t));
    TailIs(j, AndFrom(gap, o, t));
    Regroup(gap, FactorText(o), AndTailText(t));
    Regroup(JointText(j), gap + FactorText(o), AndTailText(t));
  }

  lemma TailIs(j: Joint, e: AndExpr)
    ensures AndTailText(AndGoesOn(j, e)) == JointText(j) + AndText(e) && AndTailItems(AndGoesOn(j, e)) == AndItems(e)
  {
  }

  /** One pass of parseAnd's loop that finds an operand. */
  lemma {:induction false} PassIsSpelled(g: Language, s: string, st: State) returns (j: Joint, e: AndExpr)
    requires st.pos <= |s| && AndOperand(g, s, st).Next?
    ensures var o := AndOperand(g, s, st);
            && e.One? && LexicalJoint(j) && LexicalAnd(g, e) && FactorTree(e.factor) == o.node
            && s[st.pos..o.st.pos] == JointText(j) + AndText(e)
    decreases |s| - st.pos, 2
  {
    hide ParseUnary, AndLink, Gap, Lexical, FactorText, FactorTree, JointText, LexicalJoint;
    var q := AndLink(s, st.pos).at;
    var lead;
    j, lead := LinkIsSpelled(s, st.pos);
    var gap, o := UnaryIsSpelled(g, s, st.(pos := q));
    GapsJoin(lead, gap);
    e := One(lead + gap, o);
    Cut(s, st.pos, q, AndOperand(g, s, st).st.pos);
    Regroup(JointText(j), lead, gap + FactorText(o));
    Regroup(lead, gap, FactorText(o));
  }

  /** The lists behind the first of an OR list, from their OR on. */
  datatype OrTail = OrDone | OrAgain(token: string, rest: OrExpr)

  function OrTailText(t: OrTail): string { match t case OrDone => "" case OrAgain(token, e) => token + OrText(e) }

  function OrTailItems(t: OrTail): seq<Node> { match t case OrDone => [] case OrAgain(_, e) => OrItems(e) }

  predicate LexicalOrTail(g: Language, t: OrTail) { t.OrAgain? ==> IsWord(t.token, "OR") && LexicalOr(g, t.rest) }

  /** A first list, the white space behind it, and what follows: as a list and its own white space. */
  lemma OrFrom(g: Language, a: AndExpr, gap: string, t: OrTail, after: string) returns (e: OrExpr, tail: string)
    requires LexicalAnd(g, a) && Gap(gap) && LexicalOrTail(g, t) && Gap(after)
    ensures LexicalOr(g, e) && Gap(tail) && OrText(e) + tail == AndText(a) + gap + (OrTailText(t) + after)
    ensures OrItems(e) == [AndOf(AndItems(a))] + OrTailItems(t)
  {
    hide LexicalAnd, AndText, AndItems, AndOf;
    match t
    case OrDone => e, tail := Single(a), gap + after;
    case OrAgain(token, more) => e, tail := OrMore(a, gap, token, more), after;
  }

  lemma {:induction false} OrIsSpelled(g: Language, s: string, st: State) returns (e: OrExpr, tail: string)
    requires st.pos <= |s| && ParseOr(g, s, st).Got? && ParseOr(g, s, st).node.Some?
    ensures var r := ParseOr(g, s, st);
            && st.pos <= r.st.pos <= |s| && LexicalOr(g, e) && Gap(tail) && s[st.pos..r.st.pos] == OrText(e) + tail
            && r.node == Some(OrOf(OrItems(e)))
    decreases |s| - st.pos, 5
  {
    hide ParseAnd, OrRest, Gap, ListEnds, AndOf, OrOf, LexicalAnd, AndText, AndItems, LexicalOr, OrText, OrItems, LexicalOrTail, OrTailText, OrTailItems;
    var a := ParseAnd(g, s, st);
    var first, gap := AndIsSpelled(g, s, st);
    var t, after := OrRestIsSpelled(g, s, [a.node.value], a.st);
    e, tail := OrFrom(g, first, gap, t, after);
    Cut(s, st.pos, a.st.pos, ParseOr(g, s, st).st.pos);
  }

  /** parseOr goes on at the keyword and at nothing else. */
  lemma OrTokenIsSpelled(s: string, p: nat)
    requires ListEnds(s, p) && OrLink(s, p).Continues?
    ensures OrLink(s, p).at == p + 2 <= |s| && IsWord(s[p..p + 2], "OR")
  {
    if Closed(s, p) { ClosedScans(s, p); }
  }

  lemma {:induction false} OrRestIsSpelled(g: Language, s: string, done: seq<Node>, st: State) returns (t: OrTail, after: string)
    requires done != [] && ListEnds(s, st.pos) && OrRest(g, s, done, st).Got?
    ensures var r := OrRest(g, s, done, st);
            && st.pos <= r.st.pos && LexicalOrTail(g, t) && Gap(after) && s[st.pos..r.st.pos] == OrTailText(t) + after
            && r.node == Some(OrOf(done + OrTailItems(t)))
    decreases |s| - st.pos, 3
  {
    hide ParseAnd, OrLink, AndOf, OrOf, LexicalAnd, AndText, AndItems, LexicalOr, OrText, OrItems, IsWord, KeywordAt;
    var l, end := OrLink(s, st.pos), OrRest(g, s, done, st).st;
    if l.Ends? {
      t, after := OrDone, s[st.pos..end.pos];
      EndsAfterSpace(s, st.pos);
      assert done + [] == done;
    } else {
      var q := st.pos + 2;
      OrTokenIsSpelled(s, st.pos);
      var a := ParseAnd(g, s, st.(pos := q));
      var first, gap := AndIsSpelled(g, s, st.(pos := q));
      var t', after' := OrRestIsSpelled(g, s, done + [a.node.value], a.st);
      var e;
      e, after := OrFrom(g, first, gap, t', after');
      t := OrAgain(s[st.pos..q], e);
      Cut(s, st.pos, q, end.pos);
      Cut(s, q, a.st.pos, end.pos);
      Regroup(s[st.pos..q], OrText(e), after);
      Regroup(done, [a.node.value], OrTailItems(t'));
    }
  }

  lemma EndsAfterSpace(s: string, p: nat)
    requires p <= |s| && OrLink(s, p).Ends?
    ensures OrLink(s, p).at == SkipSpace(s, p) && Gap(s[p..SkipSpace(s, p)])
  {
    SpaceIsGap(s, p);
  }

  /** Whatever parses is a spelling of the tree it gives, and white space. */
  lemma ParsedIsSpelled(g: Language, s: string) returns (e: OrExpr, tail: string)
    requires Parse(g, s).Query?
    ensures LexicalOr(g, e) && Gap(tail) && s == OrText(e) + tail && Parse(g, s).root == OrOf(OrItems(e))
  {
    hide ParseOr, OrOf, LexicalOr, OrText, OrItems, Gap;
    var r, st := ParseOr(g, s, State(0, 0, 0)), State(0, 0, 0);
    var gap;
    e, gap := OrIsSpelled(g, s, st);
    SpaceIsGap(s, r.st.pos);
    GapsJoin(gap, s[r.st.pos..]);
    tail := gap + s[r.st.pos..];
    assert s == s[0..r.st.pos] + s[r.st.pos..];
    Regroup(OrText(e), gap, s[r.st.pos..]);
  }

}
