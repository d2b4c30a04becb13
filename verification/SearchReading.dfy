// Every clear spelling of a query parses to its tree.

module SearchReading {
  import opened Common
  import opened Like
  import opened SearchSyntax
  import opened SearchParser
  import opened SearchGrammar

  predicate IsLetter(c: char) { 'a' <= c <= 'z' || 'A' <= c <= 'Z' }

  predicate Letters(r: string) {
    forall i | 0 <= i < |r| :: IsLetter(r[i])
  }

  // --- Reading at a position -----------------------------------------------------------

  /** The input carries the text `r` from position `i`. */
  predicate At(s: string, i: nat, r: string) {
    i + |r| <= |s| && s[i..i + |r|] == r
  }

  lemma AtSplit(s: string, i: nat, a: string, b: string)
    requires At(s, i, a + b)
    ensures At(s, i, a) && At(s, i + |a|, b)
  {
    assert s[i..i + |a|] == (a + b)[..|a|];
    assert s[i + |a|..i + |a| + |b|] == (a + b)[|a|..];
  }

  lemma AtChar(s: string, i: nat, r: string, k: nat)
    requires At(s, i, r) && k < |r|
    ensures s[i + k] == r[k]
  {
    assert s[i..i + |r|][k] == s[i + k];
  }

  lemma AtHead(s: string, i: nat, r: string)
    requires At(s, i, r) && r != ""
    ensures i < |s| && s[i] == r[0]
  {
    AtChar(s, i, r, 0);
  }

  /** Nothing more of the list: the input ends or the group closes. */
  predicate Closed(s: string, p: nat) {
    p == |s| || (p < |s| && s[p] == ')')
  }

  /** Where a bare word or value, or a keyword, may end. */
  predicate Boundary(s: string, p: nat) {
    p == |s| || (p < |s| && EndsValue(s[p]))
  }

  // --- White space -----------------------------------------------------------------------

  lemma {:induction false} GapSkipped(s: string, p: nat, gap: string)
    requires At(s, p, gap) && Gap(gap)
    ensures SkipSpace(s, p) == SkipSpace(s, p + |gap|)
    decreases |gap|
  {
    if gap != "" {
      AtSplit(s, p, [gap[0]], gap[1..]);
      assert gap == [gap[0]] + gap[1..];
      AtHead(s, p, gap);
      GapSkipped(s, p + 1, gap[1..]);
    }
  }

  /** White space in front of an operand or a connective makes no difference. */
  lemma GapIrrelevant(s: string, p: nat, gap: string)
    requires At(s, p, gap) && Gap(gap)
    ensures StartAt(s, p) == StartAt(s, p + |gap|)
    ensures AndLink(s, p) == AndLink(s, p + |gap|) && OrLink(s, p) == OrLink(s, p + |gap|)
  {
    hide KeywordAt, SymbolAt, SkipSpace;
    GapSkipped(s, p, gap);
  }

  lemma SameStart(g: Language, s: string, st: State, q: nat)
    requires st.pos <= |s| && q <= |s| && StartAt(s, st.pos) == StartAt(s, q)
    ensures ParseUnary(g, s, st) == ParseUnary(g, s, st.(pos := q))
  {
    hide StartAt, ParseCondition, ParseOr, Negate, CloseGroup;
    assert st.(pos := q).(pos := StartAt(s, q).at) == st.(pos := StartAt(s, q).at);
  }

  // --- Keywords ------------------------------------------------------------------------

  lemma LowerAgrees(s: string, i: nat, kw: string, k: nat)
    requires KeywordAt(s, i, kw) && k < |kw|
    ensures LowerChar(s[i + k]) == LowerChar(kw[k])
  {
    assert Lower(s[i..i + |kw|])[k] == LowerChar(s[i + k]);
    assert Lower(kw)[k] == LowerChar(kw[k]);
  }

  /** A character that is no letter starts no keyword. */
  lemma NonLetterIsNoKeyword(s: string, i: nat, kw: string)
    requires i < |s| && !IsLetter(s[i]) && kw != "" && Letters(kw)
    ensures !KeywordAt(s, i, kw)
  {
    if KeywordAt(s, i, kw) {
      LowerAgrees(s, i, kw, 0);
    }
  }

  /** A keyword, in whatever case, in front of a boundary. */
  lemma WordIsKeyword(s: string, p: nat, token: string, kw: string)
    requires At(s, p, token) && IsWord(token, kw) && Boundary(s, p + |token|)
    ensures KeywordAt(s, p, kw)
  {
  }

  /** A bare word in front of a boundary is a keyword only if it is that word. */
  lemma OtherWordIsNoKeyword(s: string, p: nat, w: string, kw: string)
    requires At(s, p, w) && PlainWord(w) && Boundary(s, p + |w|) && Letters(kw) && !IsWord(w, kw)
    ensures !KeywordAt(s, p, kw)
  {
    if KeywordAt(s, p, kw) {
      if |w| < |kw| {
        LowerAgrees(s, p, kw, |w|);
        assert false;
      } else if |kw| < |w| {
        AtChar(s, p, w, |kw|);
      }
    }
  }

  /** Nor is a word with an operator after it. */
  lemma TagIsNoKeyword(s: string, p: nat, w: string, kw: string)
    requires At(s, p, w) && PlainWord(w) && p + |w| < |s| && IsOpChar(s[p + |w|]) && Letters(kw)
    ensures !KeywordAt(s, p, kw)
  {
    if KeywordAt(s, p, kw) {
      if |w| < |kw| {
        LowerAgrees(s, p, kw, |w|);
        assert false;
      } else if |kw| < |w| {
        AtChar(s, p, w, |kw|);
      }
    }
  }

  // --- Words, values and quoted texts -------------------------------------------------------

  lemma {:induction false} WordRuns(s: string, p: nat, w: string)
    requires At(s, p, w) && (forall i | 0 <= i < |w| :: !EndsWord(w[i])) && (p + |w| == |s| || EndsWord(s[p + |w|]))
    ensures WordEnd(s, p) == p + |w|
    decreases |w|
  {
    if w != "" {
      AtSplit(s, p, [w[0]], w[1..]);
      assert w == [w[0]] + w[1..];
      AtHead(s, p, w);
      WordRuns(s, p + 1, w[1..]);
    }
  }

  lemma {:induction false} ValueRuns(s: string, p: nat, v: string)
    requires At(s, p, v) && (forall i | 0 <= i < |v| :: !EndsValue(v[i])) && Boundary(s, p + |v|)
    ensures ValueEnd(s, p) == p + |v|
    decreases |v|
  {
    if v != "" {
      AtSplit(s, p, [v[0]], v[1..]);
      assert v == [v[0]] + v[1..];
      AtHead(s, p, v);
      ValueRuns(s, p + 1, v[1..]);
    }
  }

  /** A bare value reads as it stands. */
  lemma BareValueReads(s: string, p: nat, v: string)
    requires At(s, p, v) && PlainValue(v) && Boundary(s, p + |v|)
    ensures ReadValue(s, p) == Some((v, p + |v|))
  {
    ValueRuns(s, p, v);
    AtHead(s, p, v);
  }

  /** A text between quotes reads as what it means. */
  lemma {:induction false} QuotedReadsBack(s: string, p: nat, raw: string, quote: char, v: string)
    requires At(s, p, raw + [quote]) && Means(raw, quote, v) && quote != '\\'
    ensures Quoted(s, p, quote) == Some((v, p + |raw| + 1))
    decreases |raw|
  {
    AtHead(s, p, raw + [quote]);
    if raw != "" {
      var n := if raw[0] == '\\' then 2 else 1;
      assert raw + [quote] == raw[..n] + (raw[n..] + [quote]);
      AtSplit(s, p, raw[..n], raw[n..] + [quote]);
      AtChar(s, p, raw + [quote], 1);
      QuotedReadsBack(s, p + n, raw[n..], quote, v[1..]);
      assert v == [v[0]] + v[1..];
    }
  }

  lemma QuotedValueReads(s: string, p: nat, text: string, w: Writing)
    requires At(s, p, Written(text, w)) && QuotedAs(text, w)
    ensures p < |s| && IsQuote(s[p]) && Quoted(s, p + 1, s[p]) == Some((text, p + |Written(text, w)|))
  {
    hide Quoted, Means, At;
    AtSplit(s, p, [w.quote], w.raw + [w.quote]);
    AtHead(s, p, [w.quote]);
    QuotedReadsBack(s, p + 1, w.raw, w.quote, text);
  }

  lemma WrittenReads(s: string, p: nat, text: string, w: Writing)
    requires At(s, p, Written(text, w)) && Boundary(s, p + |Written(text, w)|)
    requires if w.Bare? then PlainValue(text) else QuotedAs(text, w)
    ensures ReadValue(s, p) == Some((text, p + |Written(text, w)|))
  {
    hide Quoted, QuotedAs, ValueEnd, PlainValue;
    if w.Bare? { BareValueReads(s, p, text); } else { QuotedValueReads(s, p, text, w); }
  }

  lemma OperatorReads(s: string, p: nat, op: Op)
    requires At(s, p, OpText(op)) && (op in {Gt, Lt} ==> p + 1 == |s| || s[p + 1] != '=')
    ensures OperatorAt(s, p) == Some(op) && p < |s| && IsOpChar(s[p])
  {
    AtHead(s, p, OpText(op));
    if |OpText(op)| == 2 { AtChar(s, p, OpText(op), 1); }
    if p + 1 < |s| { assert s[p..p + 2] == [s[p], s[p + 1]]; }
  }

  lemma NoOperatorAtBoundary(s: string, p: nat)
    requires p <= |s| && Boundary(s, p)
    ensures OperatorAt(s, p).None?
  {
    if p + 1 < |s| { assert s[p..p + 2][0] == s[p]; }
  }

  // --- How an operand starts ------------------------------------------------------------------

  /** From `p` stands an operand: no space, no connective. */
  predicate OperandStarts(s: string, p: nat) {
    p < |s| && !IsSpace(s[p]) && !KeywordAt(s, p, "AND") && !SymbolAt(s, p, "&&") && !KeywordAt(s, p, "OR")
  }

  lemma SymbolStarts(s: string, p: nat, sym: string)
    requires SymbolAt(s, p, sym) && sym != ""
    ensures p < |s| && s[p] == sym[0]
  {
    assert s[p..p + |sym|][0] == s[p];
  }

  lemma WordStartsOperand(s: string, p: nat, w: string)
    requires At(s, p, w) && PlainWord(w) && w[0] != '-' && !("&&" <= w)
    requires Boundary(s, p + |w|) ==> !IsWord(w, "AND") && !IsWord(w, "OR") && !IsWord(w, "NOT")
    requires Boundary(s, p + |w|) || (p + |w| < |s| && IsOpChar(s[p + |w|]))
    ensures OperandStarts(s, p) && StartAt(s, p) == Condition(p)
  {
    AtHead(s, p, w);
    if Boundary(s, p + |w|) {
      OtherWordIsNoKeyword(s, p, w, "AND");
      OtherWordIsNoKeyword(s, p, w, "OR");
      OtherWordIsNoKeyword(s, p, w, "NOT");
    } else {
      TagIsNoKeyword(s, p, w, "AND");
      TagIsNoKeyword(s, p, w, "OR");
      TagIsNoKeyword(s, p, w, "NOT");
    }
    WordIsNoAmpersands(s, p, w);
    if SymbolAt(s, p, "-") { SymbolStarts(s, p, "-"); }
    assert SkipSpace(s, p) == p;
  }

  lemma TagStartsOperand(s: string, p: nat, w: string)
    requires At(s, p, w) && PlainWord(w) && w[0] != '-' && !("&&" <= w) && p + |w| < |s| && IsOpChar(s[p + |w|])
    ensures OperandStarts(s, p) && StartAt(s, p) == Condition(p)
  {
    WordStartsOperand(s, p, w);
  }

  lemma WordIsNoAmpersands(s: string, p: nat, w: string)
    requires At(s, p, w) && PlainWord(w) && !("&&" <= w)
    requires Boundary(s, p + |w|) || (p + |w| < |s| && IsOpChar(s[p + |w|]))
    ensures !SymbolAt(s, p, "&&")
  {
    assert p + 2 <= |s| ==> s[p..p + 2] == [s[p], s[p + 1]];
    AtHead(s, p, w);
    if |w| > 1 { AtChar(s, p, w, 1); }
    assert |w| > 1 ==> w[..2] == [w[0], w[1]];
  }

  /** A quote or a parenthesis starts an operand. */
  lemma MarkStartsOperand(s: string, p: nat)
    requires p < |s| && (IsQuote(s[p]) || s[p] == '(')
    ensures OperandStarts(s, p) && StartAt(s, p) == if s[p] == '(' then Group(p) else Condition(p)
  {
    NonLetterIsNoKeyword(s, p, "AND");
    NonLetterIsNoKeyword(s, p, "OR");
    NonLetterIsNoKeyword(s, p, "NOT");
    if SymbolAt(s, p, "&&") { SymbolStarts(s, p, "&&"); }
    if SymbolAt(s, p, "-") { SymbolStarts(s, p, "-"); }
    assert SkipSpace(s, p) == p;
  }

  lemma MinusStartsOperand(s: string, p: nat)
    requires p + 1 < |s| && s[p] == '-' && s[p + 1] != ' '
    ensures OperandStarts(s, p) && StartAt(s, p) == Negation(p + 1)
  {
    NonLetterIsNoKeyword(s, p, "AND");
    NonLetterIsNoKeyword(s, p, "OR");
    NonLetterIsNoKeyword(s, p, "NOT");
    if SymbolAt(s, p, "&&") { SymbolStarts(s, p, "&&"); }
    assert s[p..p + 1] == "-";
    assert SkipSpace(s, p) == p;
  }

  lemma NotStartsOperand(s: string, p: nat, token: string)
    requires At(s, p, token) && IsWord(token, "NOT") && Boundary(s, p + 3)
    ensures OperandStarts(s, p) && StartAt(s, p) == Negation(p + 3)
  {
    WordIsKeyword(s, p, token, "NOT");
    LowerAgrees(s, p, "NOT", 0);
    if KeywordAt(s, p, "AND") { LowerAgrees(s, p, "AND", 0); }
    if KeywordAt(s, p, "OR") { LowerAgrees(s, p, "OR", 0); }
    if SymbolAt(s, p, "&&") { SymbolStarts(s, p, "&&"); }
    assert SkipSpace(s, p) == p;
  }

  // --- Budgets ---------------------------------------------------------------------------------

  predicate Fits(st: State, n: Node) {
    st.terms + Terms(n) <= MAX_QUERY_TERMS && st.free + FreeTerms(n) <= MAX_FREE_TEXT_TERMS
  }

  predicate FitsAll(st: State, cs: seq<Node>) {
    st.terms + TermsAll(cs) <= MAX_QUERY_TERMS && st.free + FreeTermsAll(cs) <= MAX_FREE_TEXT_TERMS
  }

  function After(st: State, e: nat, n: Node): State {
    State(e, st.terms + Terms(n), st.free + FreeTerms(n))
  }

  function AfterAll(st: State, e: nat, cs: seq<Node>): State {
    State(e, st.terms + TermsAll(cs), st.free + FreeTermsAll(cs))
  }

  lemma AfterCons(st: State, m: nat, e: nat, n: Node, cs: seq<Node>)
    ensures AfterAll(After(st, m, n), e, cs) == AfterAll(st, e, [n] + cs)
    ensures FitsAll(st, [n] + cs) ==> Fits(st, n) && FitsAll(After(st, m, n), cs)
  {
    assert ([n] + cs)[1..] == cs;
  }

  lemma AfterNothing(st: State, e: nat)
    ensures AfterAll(st, e, []) == st.(pos := e)
  {
  }

  /** A collapsed list counts as its operands do. */
  lemma AfterCollapsed(st: State, e: nat, cs: seq<Node>)
    requires cs != []
    ensures After(st, e, AndOf(cs)) == After(st, e, OrOf(cs)) == AfterAll(st, e, cs)
    ensures Fits(st, AndOf(cs)) <==> FitsAll(st, cs)
    ensures Fits(st, OrOf(cs)) <==> FitsAll(st, cs)
  {
    if |cs| == 1 {
      assert cs == [cs[0]];
      SingletonCounts(cs[0]);
    }
  }

  // --- One step of each grammar function ---------------------------------------------------------

  lemma UnaryNegation(g: Language, s: string, st: State, q: nat, c: Node, end: State)
    requires st.pos <= |s| && StartAt(s, st.pos) == Negation(q)
    requires ParseUnary(g, s, st.(pos := q)) == Got(Some(c), end)
    ensures ParseUnary(g, s, st) == Got(Some(Not(c)), end)
  {
  }

  lemma UnaryGroup(g: Language, s: string, st: State, q: nat, n: Node, end: State)
    requires st.pos <= |s| && StartAt(s, st.pos) == Group(q)
    requires ParseOr(g, s, st.(pos := q + 1)) == Got(Some(n), end)
    requires end.pos < |s| && s[end.pos] == ')'
    ensures ParseUnary(g, s, st) == Got(Some(n), end.(pos := end.pos + 1))
  {
    hide StartAt, ParseOr, ParseCondition;
    assert SkipSpace(s, end.pos) == end.pos;
  }

  lemma AndStarts(g: Language, s: string, st: State, n: Node, st1: State)
    requires st.pos <= |s| && ParseUnary(g, s, st) == Got(Some(n), st1)
    ensures ParseAnd(g, s, st) == AndRest(g, s, [n], st1)
  {
  }

  lemma AndStep(g: Language, s: string, done: seq<Node>, st: State, q: nat, n: Node, st1: State)
    requires st.pos <= q <= |s| && done != [] && AndLink(s, st.pos).Continues? && AndLink(s, st.pos).at == q
    requires ParseUnary(g, s, st.(pos := q)) == Got(Some(n), st1)
    ensures AndRest(g, s, done, st) == AndRest(g, s, done + [n], st1)
  {
    assert AndOperand(g, s, st) == Next(n, st1);
  }

  lemma OrStarts(g: Language, s: string, st: State, n: Node, st1: State)
    requires st.pos <= |s| && ParseAnd(g, s, st) == Got(Some(n), st1)
    ensures ParseOr(g, s, st) == OrRest(g, s, [n], st1)
  {
  }

  lemma OrStep(g: Language, s: string, done: seq<Node>, st: State, q: nat, n: Node, st1: State)
    requires st.pos <= |s| && done != [] && OrLink(s, st.pos) == Continues(q, true)
    requires ParseAnd(g, s, st.(pos := q)) == Got(Some(n), st1)
    ensures OrRest(g, s, done, st) == OrRest(g, s, done + [n], st1)
  {
    assert OrOperand(g, s, st) == Next(n, st1);
  }

  // --- Where a list ends -------------------------------------------------------------------------

  /** After the white space at `p` an AND list has ended: at an OR, at a closing parenthesis or at the end. */
  predicate AndListEnds(s: string, p: nat)
    requires p <= |s|
  {
    Closed(s, SkipSpace(s, p)) || KeywordAt(s, SkipSpace(s, p), "OR")
  }

  lemma ConsumeNothingWhenClosed(s: string, p: nat, kw: string, sym: string)
    requires p <= |s| && Closed(s, p)
    requires kw != "" && Letters(kw) && sym != "" && sym[0] != ')'
    ensures Consume(s, p, kw, sym) == (false, p)
  {
    if p < |s| {
      NonLetterIsNoKeyword(s, p, kw);
      assert p + |sym| <= |s| ==> s[p..p + |sym|][0] == ')';
    }
  }

  /** At the end of a list nothing starts and nothing links. */
  lemma ClosedScans(s: string, p: nat)
    requires p <= |s| && Closed(s, p)
    ensures StartAt(s, p) == Nothing(p) && AndLink(s, p) == Continues(p, false) && OrLink(s, p) == Ends(p)
  {
    ConsumeNothingWhenClosed(s, p, "AND", "&&");
    ConsumeNothingWhenClosed(s, p, "OR", "||");
    ConsumeNothingWhenClosed(s, p, "NOT", "-");
    assert SkipSpace(s, p) == p;
    if p < |s| { NonLetterIsNoKeyword(s, p, "OR"); }
  }

  lemma SpaceSkipped(s: string, p: nat)
    requires p <= |s|
    ensures var q := SkipSpace(s, p);
            SkipSpace(s, q) == q && StartAt(s, p) == StartAt(s, q) && AndLink(s, p) == AndLink(s, q) && OrLink(s, p) == OrLink(s, q)
  {
    hide KeywordAt, SymbolAt;
  }

  /** The keyword OR ends an AND list. */
  lemma OrEndsAnd(s: string, p: nat)
    requires KeywordAt(s, p, "OR") && SkipSpace(s, p) == p
    ensures AndLink(s, p) == Ends(p) && OrLink(s, p) == Continues(p + 2, true)
  {
    LowerAgrees(s, p, "OR", 0);
    if KeywordAt(s, p, "AND") { LowerAgrees(s, p, "AND", 0); }
    if SymbolAt(s, p, "&&") { SymbolStarts(s, p, "&&"); }
  }

  lemma AndStops(g: Language, s: string, st: State, done: seq<Node>)
    requires st.pos <= |s| && AndListEnds(s, st.pos) && done != []
    ensures AndRest(g, s, done, st) == Got(Some(AndOf(done)), st.(pos := SkipSpace(s, st.pos)))
  {
    hide SkipSpace, StartAt, AndLink, KeywordAt;
    var q := SkipSpace(s, st.pos);
    SpaceSkipped(s, st.pos);
    if KeywordAt(s, q, "OR") {
      OrEndsAnd(s, q);
    } else {
      ClosedScans(s, q);
      assert ParseUnary(g, s, st.(pos := q)) == Got(None, st.(pos := q));
    }
    assert AndOperand(g, s, st) == Stop(st.(pos := q));
  }

  lemma OrStops(g: Language, s: string, st: State, done: seq<Node>)
    requires st.pos <= |s| && Closed(s, st.pos) && done != []
    ensures OrRest(g, s, done, st) == Got(Some(OrOf(done)), st)
  {
    ClosedScans(s, st.pos);
    assert OrOperand(g, s, st) == Stop(st);
  }

  // --- Conditions ---------------------------------------------------------------------------------

  lemma UnaryCondition(g: Language, s: string, st: State)
    requires st.pos < |s| && StartAt(s, st.pos) == Condition(st.pos)
    ensures ParseUnary(g, s, st) == ParseCondition(g, s, st)
  {
    assert st.(pos := st.pos) == st;
  }

  lemma BareTermParses(g: Language, s: string, st: State, t: string)
    requires At(s, st.pos, t) && PlainWord(t) && ClearWord(t) && Boundary(s, st.pos + |t|)
    requires |t| >= MIN_FREE_TEXT_TERM_LENGTH && Fits(st, Leaf(FreeText(t)))
    ensures OperandStarts(s, st.pos)
    ensures ParseUnary(g, s, st) == Got(Some(Leaf(FreeText(t))), After(st, st.pos + |t|, Leaf(FreeText(t))))
  {
    hide StartAt, OperandStarts, WordEnd, OperatorAt, ParseUnary;
    WordStartsOperand(s, st.pos, t);
    WordRuns(s, st.pos, t);
    NoOperatorAtBoundary(s, st.pos + |t|);
    AtHead(s, st.pos, t);
    UnaryCondition(g, s, st);
  }

  lemma QuotedTermParses(g: Language, s: string, st: State, t: string, w: Writing)
    requires At(s, st.pos, Written(t, w)) && QuotedAs(t, w)
    requires |t| >= MIN_FREE_TEXT_TERM_LENGTH && Fits(st, Leaf(FreeText(t)))
    ensures OperandStarts(s, st.pos)
    ensures ParseUnary(g, s, st) == Got(Some(Leaf(FreeText(t))), After(st, st.pos + |Written(t, w)|, Leaf(FreeText(t))))
  {
    hide At, Written, StartAt, OperandStarts, ParseUnary, Quoted, QuotedAs, WordCondition;
    QuotedValueReads(s, st.pos, t, w);
    MarkStartsOperand(s, st.pos);
    UnaryCondition(g, s, st);
  }

  lemma WordReads(g: Language, s: string, st: State, f: Field, op: Op, v: string, end: nat, e: nat)
    requires st.pos < |s| && st.pos < end && !IsQuote(s[st.pos]) && st.terms < MAX_QUERY_TERMS
    requires WordEnd(s, st.pos) == end && OperatorAt(s, end) == Some(op)
    requires LookupField(g, s[st.pos..end]) == Some(f)
    requires ReadValue(s, end + |OpText(op)|) == Some((v, e)) && v != "" && TypedField(g.dec, f, op, v)
    ensures ParseCondition(g, s, st) == Got(Some(Leaf(Tagged(f, op, v))), State(e, st.terms + 1, st.free))
  {
    hide WordEnd, OperatorAt, ReadValue, LookupField, TypedField;
  }

  /** What the scanner finds at a tag, its operator and its value. */
  lemma TagScans(s: string, p: nat, word: string, op: Op, text: string, w: Writing)
    requires At(s, p, word + (OpText(op) + Written(text, w)))
    requires Boundary(s, p + |word| + |OpText(op)| + |Written(text, w)|)
    requires PlainWord(word) && (if w.Bare? then PlainValue(text) else QuotedAs(text, w))
    requires w.Bare? && op in {Gt, Lt} ==> text[0] != '='
    ensures var q := p + |word|;
            && p < q < |s| && s[p] == word[0] && s[p..q] == word && WordEnd(s, p) == q
            && OperatorAt(s, q) == Some(op) && IsOpChar(s[q])
            && ReadValue(s, q + |OpText(op)|) == Some((text, q + |OpText(op)| + |Written(text, w)|))
  {
    hide At, WordEnd, OperatorAt, ReadValue, PlainValue, QuotedAs, Written, Boundary, OpText;
    var q := p + |word|;
    AtSplit(s, p, word, OpText(op) + Written(text, w));
    AtSplit(s, q, OpText(op), Written(text, w));
    AtHead(s, p, word);
    ValueHead(text, w);
    AtHead(s, q + |OpText(op)|, Written(text, w));
    OpWidth(op);
    OperatorReads(s, q, op);
    WordRuns(s, p, word);
    WrittenReads(s, q + |OpText(op)|, text, w);
    AtText(s, p, word);
  }

  lemma AtText(s: string, p: nat, r: string)
    requires At(s, p, r)
    ensures p + |r| <= |s| && s[p..p + |r|] == r
  {
  }

  lemma TagParses(g: Language, s: string, st: State, o: Factor)
    requires o.TagTerm? && Lexical(g, o) && Clear(o) && At(s, st.pos, FactorText(o)) && Boundary(s, st.pos + |FactorText(o)|)
    requires Fits(st, FactorTree(o))
    ensures OperandStarts(s, st.pos)
    ensures ParseUnary(g, s, st) == Got(Some(FactorTree(o)), After(st, st.pos + |FactorText(o)|, FactorTree(o)))
  {
    hide At, StartAt, OperandStarts, ParseUnary, ParseCondition, WordEnd, OperatorAt, ReadValue, TypedField, QuotedAs, OpText,
      PlainValue, Boundary, Written;
    var p, w := st.pos, o.word;
    AtSplit(s, p, w, OpText(o.op) + Written(o.text, o.writing));
    TagScans(s, p, w, o.op, o.text, o.writing);
    TagStartsOperand(s, p, w);
    WordReads(g, s, st, o.field, o.op, o.text, p + |w|, p + |FactorText(o)|);
    UnaryCondition(g, s, st);
  }

  lemma OpWidth(op: Op)
    ensures |OpText(op)| == if op in {Gt, Lt, Eq, Colon} then 1 else 2
  {
  }

  /** What a written value starts with. */
  lemma ValueHead(text: string, w: Writing)
    requires if w.Bare? then PlainValue(text) else QuotedAs(text, w)
    ensures Written(text, w) != "" && (w.Bare? || Written(text, w)[0] != '=')
    ensures w.Bare? ==> Written(text, w)[0] == text[0]
  {
  }

  // --- Every clear spelling parses -------------------------------------------------------------------

  /** An operand that is spelled clearly is the one parseUnary reads. */
  lemma {:induction false} FactorParses(g: Language, s: string, st: State, o: Factor)
    requires Lexical(g, o) && Clear(o) && At(s, st.pos, FactorText(o)) && Boundary(s, st.pos + |FactorText(o)|)
    requires Fits(st, FactorTree(o))
    ensures OperandStarts(s, st.pos)
    ensures ParseUnary(g, s, st) == Got(Some(FactorTree(o)), After(st, st.pos + |FactorText(o)|, FactorTree(o)))
    decreases o, 0
  {
    hide ParseUnary, OperandStarts, At, Boundary, PlainWord, ClearWord, QuotedAs;
    match o
    case Term(t, w) =>
      if w.Bare? { BareTermParses(g, s, st, t); } else { QuotedTermParses(g, s, st, t, w); }
    case TagTerm(_, _, _, _, _) => TagParses(g, s, st, o);
    case Negated(_, _, _) => NegatedParses(g, s, st, o);
    case Paren(_, _) => ParenParses(g, s, st, o);
  }

  lemma NegationReads(g: Language, s: string, st: State, token: string, gap: string, c: Node, end: State)
    requires At(s, st.pos, token) && At(s, st.pos + |token|, gap) && Gap(gap) && OperandStarts(s, st.pos + |token| + |gap|)
    requires if token == "-" then gap == "" else IsWord(token, "NOT") && gap != ""
    requires ParseUnary(g, s, st.(pos := st.pos + |token| + |gap|)) == Got(Some(c), end)
    ensures OperandStarts(s, st.pos) && ParseUnary(g, s, st) == Got(Some(Not(c)), end)
  {
    hide StartAt, OperandStarts, ParseUnary, At, IsWord, Gap;
    var q := st.pos + |token|;
    NegationStarts(s, st.pos, token, gap);
    GapIrrelevant(s, q, gap);
    SameStart(g, s, st.(pos := q), q + |gap|);
    UnaryNegation(g, s, st, q, c, end);
  }

  lemma {:induction false} NegatedParses(g: Language, s: string, st: State, o: Factor)
    requires o.Negated? && Lexical(g, o) && Clear(o) && At(s, st.pos, FactorText(o)) && Boundary(s, st.pos + |FactorText(o)|)
    requires Fits(st, FactorTree(o))
    ensures OperandStarts(s, st.pos)
    ensures ParseUnary(g, s, st) == Got(Some(FactorTree(o)), After(st, st.pos + |FactorText(o)|, FactorTree(o)))
    decreases o.inner, 1
  {
    hide ParseUnary, OperandStarts, At, Boundary, IsWord, Gap;
    var q := st.pos + |o.token|;
    AtSplit(s, st.pos, o.token, o.gap + FactorText(o.inner));
    AtSplit(s, q, o.gap, FactorText(o.inner));
    FactorParses(g, s, st.(pos := q + |o.gap|), o.inner);
    NegationReads(g, s, st, o.token, o.gap, FactorTree(o.inner), After(st, st.pos + |FactorText(o)|, FactorTree(o)));
  }

  lemma NegationStarts(s: string, p: nat, token: string, gap: string)
    requires At(s, p, token) && At(s, p + |token|, gap) && Gap(gap) && OperandStarts(s, p + |token| + |gap|)
    requires if token == "-" then gap == "" else IsWord(token, "NOT") && gap != ""
    ensures OperandStarts(s, p) && StartAt(s, p) == Negation(p + |token|)
  {
    hide StartAt, KeywordAt, SymbolAt, Lower;
    if token == "-" {
      AtHead(s, p, token);
      MinusStartsOperand(s, p);
    } else {
      AtHead(s, p + |token|, gap);
      NotStartsOperand(s, p, token);
    }
  }

  lemma {:induction false} ParenParses(g: Language, s: string, st: State, o: Factor)
    requires o.Paren? && Lexical(g, o) && Clear(o) && At(s, st.pos, FactorText(o))
    requires Fits(st, FactorTree(o))
    ensures OperandStarts(s, st.pos)
    ensures ParseUnary(g, s, st) == Got(Some(FactorTree(o)), After(st, st.pos + |FactorText(o)|, FactorTree(o)))
    decreases o.body, 4
  {
    hide At, StartAt, OperandStarts, ParseUnary, ParseOr, Gap, OrText, LexicalOr, ClearOr, OrItems, OrOf, SkipSpace, Terms, FreeTerms, TermsAll, FreeTermsAll;
    var p, n := st.pos, FactorTree(o);
    var q := p + 1 + |OrText(o.body)|;
    var e := q + |o.tail|;
    AtSplit(s, p, "(", OrText(o.body) + (o.tail + ")"));
    AtSplit(s, p + 1, OrText(o.body), o.tail + ")");
    AtSplit(s, q, o.tail, ")");
    AtHead(s, p, "(");
    AtHead(s, e, ")");
    MarkStartsOperand(s, p);
    GapThenClosed(s, q, o.tail);
    AfterCollapsed(st, e, OrItems(o.body));
    OrReads(g, s, st.(pos := p + 1), o.body);
    UnaryGroup(g, s, st, p, n, After(st, e, n));
  }

  lemma GapThenClosed(s: string, p: nat, gap: string)
    requires At(s, p, gap) && Gap(gap) && Closed(s, p + |gap|)
    ensures SkipSpace(s, p) == p + |gap| && Boundary(s, p)
  {
    GapSkipped(s, p, gap);
    if gap != "" { AtHead(s, p, gap); }
  }

  /** The link between two AND operands leads to the second. */
  lemma JointLeads(s: string, p: nat, j: Joint, gap: string)
    requires At(s, p, JointText(j)) && At(s, p + |JointText(j)|, gap) && OperandStarts(s, p + |JointText(j)| + |gap|)
    requires LexicalJoint(j) && ClearJoint(j, gap) && Gap(gap)
    ensures AndLink(s, p).Continues? && StartAt(s, AndLink(s, p).at) == StartAt(s, p + |JointText(j)| + |gap|)
  {
    hide StartAt, OperandStarts, At, AndLink, IsWord, Gap;
    GapIrrelevant(s, p + |JointText(j)|, gap);
    if j.Adjacent? {
      NothingLinks(s, p + |gap|);
    } else {
      AtSplit(s, p, j.gap, j.token);
      JoinedLinks(s, p, j.gap, j.token, gap);
    }
  }

  lemma JoinedLinks(s: string, p: nat, before: string, token: string, gap: string)
    requires At(s, p, before) && Gap(before) && At(s, p + |before|, token) && At(s, p + |before| + |token|, gap) && Gap(gap)
    requires token == "&&" || (IsWord(token, "AND") && gap != "")
    ensures AndLink(s, p) == Continues(p + |before| + |token|, true)
  {
    hide StartAt, At, AndLink, IsWord, Gap;
    GapIrrelevant(s, p, before);
    ConnectiveLinks(s, p + |before|, token, gap);
  }

  lemma NothingLinks(s: string, p: nat)
    requires OperandStarts(s, p)
    ensures AndLink(s, p) == Continues(p, false)
  {
    assert SkipSpace(s, p) == p;
  }

  lemma ConnectiveLinks(s: string, p: nat, token: string, gap: string)
    requires At(s, p, token) && At(s, p + |token|, gap) && Gap(gap) && (token == "&&" || (IsWord(token, "AND") && gap != ""))
    ensures AndLink(s, p) == Continues(p + |token|, true)
  {
    if gap != "" { AtHead(s, p + |token|, gap); }
    if token == "&&" {
      AtHead(s, p, token);
      NonLetterIsNoKeyword(s, p, "AND");
    } else {
      WordIsKeyword(s, p, token, "AND");
      LowerAgrees(s, p, "AND", 0);
    }
    assert SkipSpace(s, p) == p;
  }

  lemma FirstIsClear(g: Language, e: AndExpr)
    requires LexicalAnd(g, e) && ClearAnd(e)
    ensures Gap(e.gap) && Lexical(g, e.factor) && Clear(e.factor)
  {
  }

  lemma {:induction false} FirstReads(g: Language, s: string, st: State, gap: string, o: Factor)
    requires Gap(gap) && Lexical(g, o) && Clear(o) && At(s, st.pos, gap + FactorText(o))
    requires Boundary(s, st.pos + |gap| + |FactorText(o)|) && Fits(st, FactorTree(o))
    ensures OperandStarts(s, st.pos + |gap|) && StartAt(s, st.pos) == StartAt(s, st.pos + |gap|)
    ensures ParseUnary(g, s, st) == Got(Some(FactorTree(o)), After(st, st.pos + |gap| + |FactorText(o)|, FactorTree(o)))
    decreases o, 1
  {
    hide FactorText, FactorTree, Lexical, Clear, Gap, Terms, FreeTerms, At, Boundary, StartAt, OperandStarts, ParseUnary;
    var m := st.pos + |gap|;
    AtSplit(s, st.pos, gap, FactorText(o));
    FactorParses(g, s, st.(pos := m), o);
    GapIrrelevant(s, st.pos, gap);
    SameStart(g, s, st, m);
  }

  /** The operands of an AND list behind its first. */
  function Later(e: AndExpr): seq<Node> { if e.One? then [] else AndItems(e.more) }

  lemma ItemsSplit(e: AndExpr)
    ensures AndItems(e) == [FactorTree(e.factor)] + Later(e)
  {
  }

  /** What stands behind the first operand of an AND list. */
  function Behind(e: AndExpr): string { if e.One? then "" else JointText(e.joint) + AndText(e.more) }

  lemma BehindFirst(g: Language, s: string, p: nat, e: AndExpr)
    requires LexicalAnd(g, e) && ClearAnd(e) && At(s, p, AndText(e)) && Boundary(s, p + |AndText(e)|)
    ensures var m := p + |e.gap| + |FactorText(e.factor)|;
            At(s, p, e.gap + FactorText(e.factor)) && At(s, m, Behind(e)) && Boundary(s, m) && m + |Behind(e)| == p + |AndText(e)|
  {
    hide LexicalAnd, ClearAnd, AndText, At, Behind, FactorText;
    var first := e.gap + FactorText(e.factor);
    AndTextSplit(e);
    AtSplit(s, p, first, Behind(e));
    SpaceBehind(g, e);
    if e.AndMore? { AtHead(s, p + |first|, Behind(e)); }
  }

  lemma AndTextSplit(e: AndExpr)
    ensures AndText(e) == e.gap + FactorText(e.factor) + Behind(e)
  {
    Regroup(e.gap, FactorText(e.factor), Behind(e));
  }

  lemma SpaceBehind(g: Language, e: AndExpr)
    requires LexicalAnd(g, e) && ClearAnd(e)
    ensures if e.One? then Behind(e) == "" else Behind(e) != "" && IsSpace(Behind(e)[0])
  {
    if e.AndMore? {
      hide Lexical, Clear, AndText, FactorText;
      FirstIsClear(g, e.more);
      SpaceFirst(e.joint, e.more);
    }
  }

  lemma SpaceFirst(j: Joint, more: AndExpr)
    requires ClearJoint(j, more.gap) && LexicalJoint(j) && Gap(more.gap)
    ensures var t := JointText(j) + AndText(more); t != "" && IsSpace(t[0])
  {
  }

  /** The pieces between the first operand of `e` and the end of its second. */
  lemma PassPieces(g: Language, s: string, p: nat, e: AndExpr)
    requires e.AndMore? && LexicalAnd(g, e) && ClearAnd(e) && At(s, p, Behind(e)) && Boundary(s, p + |Behind(e)|)
    ensures var more, q := e.more, p + |JointText(e.joint)|;
            var m := q + |more.gap| + |FactorText(more.factor)|;
            && At(s, p, JointText(e.joint)) && At(s, q, more.gap) && At(s, q, more.gap + FactorText(more.factor))
            && m + |Behind(more)| == p + |Behind(e)| && m <= |s| && At(s, m, Behind(more)) && Boundary(s, m)
            && LexicalJoint(e.joint) && ClearJoint(e.joint, more.gap)
            && Gap(more.gap) && Lexical(g, more.factor) && Clear(more.factor)
  {
    hide At, Boundary, FactorText, FactorTree, AndText, JointText, Lexical, Clear, Gap, LexicalJoint, ClearJoint;
    var more, q := e.more, p + |JointText(e.joint)|;
    AtSplit(s, p, JointText(e.joint), AndText(more));
    BehindFirst(g, s, q, more);
    AtText(s, q + |more.gap| + |FactorText(more.factor)|, Behind(more));
    AtSplit(s, q, more.gap, FactorText(more.factor));
    FirstIsClear(g, more);
  }

  /** One pass of parseAnd's loop, from behind the first operand of `e` to behind the second. */
  lemma {:induction false} AndPass(g: Language, s: string, st: State, done: seq<Node>, e: AndExpr)
    requires e.AndMore? && LexicalAnd(g, e) && ClearAnd(e) && At(s, st.pos, Behind(e)) && done != [] && FitsAll(st, Later(e))
    requires Boundary(s, st.pos + |Behind(e)|)
    ensures var n, m := FactorTree(e.more.factor), st.pos + |Behind(e)| - |Behind(e.more)|;
            && 0 <= m <= |s| && AndRest(g, s, done, st) == AndRest(g, s, done + [n], After(st, m, n))
            && At(s, m, Behind(e.more)) && FitsAll(After(st, m, n), Later(e.more))
    decreases e, 2
  {
    hide StartAt, OperandStarts, ParseUnary, AndRest, Boundary, At, Lexical, Clear, FactorText, FactorTree, LexicalJoint,
      ClearJoint, AndLink, Gap, JointText, Terms, FreeTerms, TermsAll, FreeTermsAll, AndText, AndItems, Behind, LexicalAnd, ClearAnd, FitsAll;
    var more := e.more;
    var n, q := FactorTree(more.factor), st.pos + |JointText(e.joint)|;
    var m := q + |more.gap| + |FactorText(more.factor)|;
    PassPieces(g, s, st.pos, e);
    ItemsSplit(more);
    AfterCons(st, m, m, n, Later(more));
    FirstReads(g, s, st.(pos := q), more.gap, more.factor);
    JointLeads(s, st.pos, e.joint, more.gap);
    SameStart(g, s, st.(pos := AndLink(s, st.pos).at), q);
    AndStep(g, s, done, st, AndLink(s, st.pos).at, n, After(st, m, n));
  }

  /** The loop of parseAnd takes in the operands of `e` behind the first, whatever comes next. */
  lemma {:induction false} AndRestReads(g: Language, s: string, st: State, done: seq<Node>, e: AndExpr)
    requires LexicalAnd(g, e) && ClearAnd(e) && st.pos <= |s| && At(s, st.pos, Behind(e)) && done != [] && FitsAll(st, Later(e))
    requires Boundary(s, st.pos + |Behind(e)|)
    ensures AndRest(g, s, done, st) == AndRest(g, s, done + Later(e), AfterAll(st, st.pos + |Behind(e)|, Later(e)))
    decreases e, 3
  {
    hide AndRest, Boundary, At, Lexical, Clear, FactorTree, LexicalJoint, ClearJoint, Gap,
      Terms, FreeTerms, TermsAll, FreeTermsAll, AndText, AndItems, FitsAll, AfterAll;
    if e.One? {
      assert done + [] == done;
      AfterNothing(st, st.pos);
      assert st.(pos := st.pos) == st;
    } else {
      var n, m := FactorTree(e.more.factor), st.pos + |Behind(e)| - |Behind(e.more)|;
      AndPass(g, s, st, done, e);
      AndRestReads(g, s, After(st, m, n), done + [n], e.more);
      ItemsSplit(e.more);
      AfterCons(st, m, st.pos + |Behind(e)|, n, Later(e.more));
      Regroup(done, [n], Later(e.more));
    }
  }

  /** parseAnd takes in a clearly spelled list, whatever comes next. */
  lemma {:induction false} AndTakesIn(g: Language, s: string, st: State, e: AndExpr)
    requires LexicalAnd(g, e) && ClearAnd(e) && At(s, st.pos, AndText(e)) && FitsAll(st, AndItems(e))
    requires Boundary(s, st.pos + |AndText(e)|)
    ensures st.pos + |AndText(e)| <= |s|
    ensures ParseAnd(g, s, st) == AndRest(g, s, AndItems(e), AfterAll(st, st.pos + |AndText(e)|, AndItems(e)))
    decreases e, 4
  {
    hide StartAt, OperandStarts, ParseUnary, ParseAnd, AndRest, Boundary, At, LexicalAnd, ClearAnd, AndText, AndItems,
      FactorText, FactorTree, Later, Behind, Terms, FreeTerms, TermsAll, FreeTermsAll;
    var n, m := FactorTree(e.factor), st.pos + |e.gap| + |FactorText(e.factor)|;
    ItemsSplit(e);
    BehindFirst(g, s, st.pos, e);
    AtText(s, m, Behind(e));
    AfterCons(st, m, st.pos + |AndText(e)|, n, Later(e));
    FirstIsClear(g, e);
    FirstReads(g, s, st, e.gap, e.factor);
    AndStarts(g, s, st, n, After(st, m, n));
    AndRestReads(g, s, After(st, m, n), [n], e);
  }

  /** A clearly spelled AND list is the one parseAnd reads. */
  lemma {:induction false} AndReads(g: Language, s: string, st: State, e: AndExpr)
    requires LexicalAnd(g, e) && ClearAnd(e) && At(s, st.pos, AndText(e)) && FitsAll(st, AndItems(e))
    requires Boundary(s, st.pos + |AndText(e)|) && AndListEnds(s, st.pos + |AndText(e)|)
    ensures ParseAnd(g, s, st)
         == Got(Some(AndOf(AndItems(e))), AfterAll(st, SkipSpace(s, st.pos + |AndText(e)|), AndItems(e)))
    decreases e, 5
  {
    hide ParseAnd, AndRest, SkipSpace, AndListEnds, AndOf, Boundary, At, LexicalAnd, ClearAnd, AndText, AndItems, TermsAll, FreeTermsAll;
    AndTakesIn(g, s, st, e);
    AndStops(g, s, AfterAll(st, st.pos + |AndText(e)|, AndItems(e)), AndItems(e));
  }

  function FirstOf(e: OrExpr): AndExpr { if e.Single? then e.only else e.first }

  function OrLater(e: OrExpr): seq<Node> { if e.Single? then [] else OrItems(e.more) }

  lemma OrItemsSplit(e: OrExpr)
    ensures OrItems(e) == [AndOf(AndItems(FirstOf(e)))] + OrLater(e)
  {
  }

  function OrBehind(e: OrExpr): string { if e.Single? then "" else e.gap + (e.token + OrText(e.more)) }

  /** Where the first AND list of an OR list ends, and what stands there. */
  lemma OrBehindFirst(g: Language, s: string, p: nat, e: OrExpr)
    requires LexicalOr(g, e) && ClearOr(e) && At(s, p, OrText(e))
    requires Boundary(s, p + |OrText(e)|) && Closed(s, SkipSpace(s, p + |OrText(e)|))
    ensures var m := p + |AndText(FirstOf(e))|;
            && At(s, p, AndText(FirstOf(e))) && m <= m + |OrBehind(e)| == p + |OrText(e)| <= |s|
            && Boundary(s, m) && AndListEnds(s, m)
            && (e.OrMore? ==> OrGoesOn(s, m, e))
  {
    hide At, Boundary, Closed, SkipSpace, LexicalOr, ClearOr, AndText, AndListEnds, OrGoesOn, OrText, OrBehind, FirstOf;
    var m := p + |AndText(FirstOf(e))|;
    OrTextSplit(e);
    AtSplit(s, p, AndText(FirstOf(e)), OrBehind(e));
    AtText(s, p, OrText(e));
    if e.OrMore? { OrLeads(g, s, m, e); } else { OrListEnds(s, m); }
  }

  lemma OrTextSplit(e: OrExpr)
    ensures OrText(e) == AndText(FirstOf(e)) + OrBehind(e) && (e.Single? ==> OrBehind(e) == "")
  {
    hide AndText;
  }

  /** From `m` an OR leads to the rest of the list. */
  predicate OrGoesOn(s: string, m: nat, e: OrExpr)
    requires e.OrMore?
  {
    && m + |e.gap| + 2 <= |s| && |e.token| == 2 && SkipSpace(s, m) == m + |e.gap|
    && At(s, m + |e.gap| + 2, OrText(e.more)) && OrLink(s, m + |e.gap|) == Continues(m + |e.gap| + 2, true)
  }

  lemma OrLeads(g: Language, s: string, m: nat, e: OrExpr)
    requires e.OrMore? && LexicalOr(g, e) && ClearOr(e) && At(s, m, OrBehind(e))
    ensures Boundary(s, m) && AndListEnds(s, m) && OrGoesOn(s, m, e)
  {
    hide At, AndText, SkipSpace, OrLink, AndListEnds, LexicalAnd, ClearAnd, Lower, OrText;
    var q := m + |e.gap|;
    AtSplit(s, m, e.gap, e.token + OrText(e.more));
    AtSplit(s, q, e.token, OrText(e.more));
    AtHead(s, m, e.gap);
    OrHeads(g, e.more);
    AtHead(s, q + |e.token|, OrText(e.more));
    OrTokenReads(s, m, e.gap, e.token);
  }

  lemma OrListEnds(s: string, p: nat)
    requires p <= |s| && Closed(s, SkipSpace(s, p))
    ensures AndListEnds(s, p)
  {
  }

  lemma OrTokenReads(s: string, p: nat, gap: string, token: string)
    requires At(s, p, gap) && Gap(gap) && At(s, p + |gap|, token) && IsWord(token, "OR") && Boundary(s, p + |gap| + |token|)
    ensures |token| == 2 && SkipSpace(s, p) == p + |gap| && AndListEnds(s, p) && OrLink(s, p + |gap|) == Continues(p + |gap| + 2, true)
  {
    hide OrLink;
    var q := p + |gap|;
    GapSkipped(s, p, gap);
    WordIsKeyword(s, q, token, "OR");
    LowerAgrees(s, q, "OR", 0);
    assert SkipSpace(s, q) == q;
    OrEndsAnd(s, q);
  }

  lemma OrHeads(g: Language, e: OrExpr)
    requires LexicalOr(g, e) && OrHeadGap(e) != ""
    ensures OrText(e) != "" && IsSpace(OrText(e)[0])
  {
  }

  /** A clearly spelled OR list is the one parseOr reads. */
  lemma {:induction false} OrReads(g: Language, s: string, st: State, e: OrExpr)
    requires LexicalOr(g, e) && ClearOr(e) && At(s, st.pos, OrText(e)) && FitsAll(st, OrItems(e))
    requires Boundary(s, st.pos + |OrText(e)|) && Closed(s, SkipSpace(s, st.pos + |OrText(e)|))
    ensures ParseOr(g, s, st)
         == Got(Some(OrOf(OrItems(e))), AfterAll(st, SkipSpace(s, st.pos + |OrText(e)|), OrItems(e)))
    decreases e, 3
  {
    hide ParseAnd, ParseOr, OrRest, SkipSpace, AndListEnds, AndOf, OrOf, Boundary, OrLink, At, LexicalAnd, ClearAnd, OrText, OrItems,
      OrGoesOn, AndText, AndItems, OrLater, OrBehind, Terms, FreeTerms, TermsAll, FreeTermsAll;
    OrBehindFirst(g, s, st.pos, e);
    var a := FirstOf(e);
    var n, rest := AndOf(AndItems(a)), OrLater(e);
    var m := st.pos + |AndText(a)|;
    var q := SkipSpace(s, m);
    OrItemsSplit(e);
    AfterCons(st, q, SkipSpace(s, st.pos + |OrText(e)|), n, rest);
    AfterCollapsed(st, q, AndItems(a));
    AndReads(g, s, st, a);
    OrStarts(g, s, st, n, After(st, q, n));
    OrRestReads(g, s, After(st, q, n), [n], e, m);
  }

  /** One pass of parseOr's loop, from the OR behind the first list of `e` to the space behind the second. */
  lemma {:induction false} OrPass(g: Language, s: string, st: State, done: seq<Node>, e: OrExpr, m: nat)
    requires e.OrMore? && LexicalOr(g, e) && ClearOr(e) && done != [] && m <= |s| && st.pos == SkipSpace(s, m) && OrGoesOn(s, m, e)
    requires m + |OrBehind(e)| <= |s| && Boundary(s, m + |OrBehind(e)|) && Closed(s, SkipSpace(s, m + |OrBehind(e)|))
    requires FitsAll(st, OrLater(e))
    ensures var n, m' := AndOf(AndItems(FirstOf(e.more))), m + |OrBehind(e)| - |OrBehind(e.more)|;
            && 0 <= m' <= |s| && OrRest(g, s, done, st) == OrRest(g, s, done + [n], After(st, SkipSpace(s, m'), n))
            && (e.more.OrMore? ==> OrGoesOn(s, m', e.more)) && FitsAll(After(st, SkipSpace(s, m'), n), OrLater(e.more))
    decreases e, 1
  {
    hide ParseAnd, OrRest, SkipSpace, AndListEnds, AndOf, Boundary, OrLink, At, LexicalAnd, ClearAnd, AndText, AndItems,
      OrItems, Terms, FreeTerms, TermsAll, FreeTermsAll, Gap, Lower, OrText;
    var p, more := st.pos + 2, e.more;
    var a := FirstOf(more);
    OrBehindFirst(g, s, p, more);
    var n, m' := AndOf(AndItems(a)), p + |AndText(a)|;
    OrItemsSplit(more);
    AfterCons(st, SkipSpace(s, m'), m', n, OrLater(more));
    AfterCollapsed(st, SkipSpace(s, m'), AndItems(a));
    AndReads(g, s, st.(pos := p), a);
    OrStep(g, s, done, st, p, n, After(st, SkipSpace(s, m'), n));
  }

  /** The loop of parseOr, once the first list of `e` has been read up to `m` and the space behind it. */
  lemma {:induction false} OrRestReads(g: Language, s: string, st: State, done: seq<Node>, e: OrExpr, m: nat)
    requires LexicalOr(g, e) && ClearOr(e) && done != [] && m + |OrBehind(e)| <= |s| && st.pos == SkipSpace(s, m)
    requires Boundary(s, m + |OrBehind(e)|) && Closed(s, SkipSpace(s, m + |OrBehind(e)|))
    requires (e.OrMore? ==> OrGoesOn(s, m, e)) && FitsAll(st, OrLater(e))
    ensures OrRest(g, s, done, st)
         == Got(Some(OrOf(done + OrLater(e))), AfterAll(st, SkipSpace(s, m + |OrBehind(e)|), OrLater(e)))
    decreases e, 2
  {
    hide OrRest, SkipSpace, AndOf, OrOf, Boundary, OrGoesOn, LexicalAnd, ClearAnd, AndItems, OrItems, OrText,
      Terms, FreeTerms, TermsAll, FreeTermsAll, Gap, IsWord, FitsAll, AfterAll;
    if e.Single? {
      assert done + [] == done;
      AfterNothing(st, st.pos);
      OrStops(g, s, st, done);
      SpaceSkipped(s, m);
    } else {
      var n, m' := AndOf(AndItems(FirstOf(e.more))), m + |OrBehind(e)| - |OrBehind(e.more)|;
      OrPass(g, s, st, done, e, m);
      OrRestReads(g, s, After(st, SkipSpace(s, m'), n), done + [n], e.more, m');
      OrItemsSplit(e.more);
      AfterCons(st, SkipSpace(s, m'), SkipSpace(s, m + |OrBehind(e)|), n, OrLater(e.more));
      Regroup(done, [n], OrLater(e.more));
    }
  }

  /** Every clear spelling of a query within the limits parses to its tree. */
  lemma SpellingParses(g: Language, e: OrExpr, tail: string)
    requires LexicalOr(g, e) && ClearOr(e) && Gap(tail) && |OrText(e) + tail| <= MAX_QUERY_LENGTH
    requires TermsAll(OrItems(e)) <= MAX_QUERY_TERMS && FreeTermsAll(OrItems(e)) <= MAX_FREE_TEXT_TERMS
    ensures Parse(g, OrText(e) + tail) == Query(OrOf(OrItems(e)))
  {
    hide ParseOr, OrText, LexicalOr, ClearOr, OrItems, OrOf;
    var s, m := OrText(e) + tail, |OrText(e)|;
    AtSplit(s, 0, OrText(e), tail);
    GapThenClosed(s, m, tail);
    OrReads(g, s, State(0, 0, 0), e);
    assert SkipSpace(s, |s|) == |s|;
  }

  // --- The symbol for OR --------------------------------------------------------------------------

  /** A lone `||` is read as a term that is too short. */
  lemma PipesAreATerm(g: Language, s: string, st: State)
    requires At(s, st.pos, " ") && At(s, st.pos + 1, "||") && At(s, st.pos + 3, " ")
    ensures AndLink(s, st.pos).Continues? && ParseUnary(g, s, st.(pos := AndLink(s, st.pos).at)).Err?
  {
    hide At, StartAt, AndLink, OperandStarts, ParseUnary, WordEnd, OperatorAt;
    var p := st.pos + 1;
    AtHead(s, p, "||");
    AtHead(s, p + 2, " ");
    WordStartsOperand(s, p, "||");
    GapIrrelevant(s, st.pos, " ");
    NothingLinks(s, p);
    WordRuns(s, p, "||");
    NoOperatorAtBoundary(s, p + 2);
    UnaryCondition(g, s, st.(pos := p));
  }

  /** Behind operands the symbol `||` never joins: the query is refused. */
  lemma PipesAreRefused(g: Language, e: AndExpr, rest: string)
    requires LexicalAnd(g, e) && ClearAnd(e)
    requires TermsAll(AndItems(e)) <= MAX_QUERY_TERMS && FreeTermsAll(AndItems(e)) <= MAX_FREE_TEXT_TERMS
    ensures Parse(g, AndText(e) + (" " + ("||" + (" " + rest)))).Refused?
  {
    hide ParseAnd, AndText, LexicalAnd, ClearAnd, AndItems, AndLink, ParseUnary, TermsAll, FreeTermsAll;
    var s, st, m := AndText(e) + (" " + ("||" + (" " + rest))), State(0, 0, 0), |AndText(e)|;
    AtSplit(s, 0, AndText(e), " " + ("||" + (" " + rest)));
    AtSplit(s, m, " ", "||" + (" " + rest));
    AtSplit(s, m + 1, "||", " " + rest);
    AtSplit(s, m + 3, " ", rest);
    AtHead(s, m, " ");
    AndTakesIn(g, s, st, e);
    var end := AfterAll(st, m, AndItems(e));
    PipesAreATerm(g, s, end);
    assert AndOperand(g, s, end).Bad?;
  }
}
