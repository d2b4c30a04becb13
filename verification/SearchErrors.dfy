// What a refused query is told: every error is true of the input at the place it names.

module SearchErrors {
  import opened Common
  import opened Like
  import opened SearchSyntax
  import opened SearchParser
  import opened SearchGrammar
  import opened SearchReading
  import opened SearchRoundTrip

  /** From `p` stands a word, an operator and then `after`. */
  predicate TagAt(s: string, p: nat, word: string, op: Op, after: nat) {
    PlainWord(word) && At(s, p, word + OpText(op)) && after == p + |word + OpText(op)|
  }

  /** A text is opened at `p` and nothing closes it. */
  predicate Unclosed(s: string, p: nat) { p < |s| && IsQuote(s[p]) && Quoted(s, p + 1, s[p]).None? }

  /** A tag that the index does not have. */
  ghost predicate UnknownAt(g: Language, s: string, p: nat) {
    exists word, op, after :: TagAt(s, p, word, op, after) && Lower(word) !in g.index
  }

  /** An operator with no value behind it. */
  ghost predicate NoValueAt(s: string, p: nat) {
    exists word, op, after :: TagAt(s, p, word, op, after) && (after == |s| || Boundary(s, after) || EmptyQuotes(s, after))
  }

  predicate EmptyQuotes(s: string, p: nat) { p + 1 < |s| && IsQuote(s[p]) && s[p + 1] == s[p] }

  /** A term that is spelled there and too short. */
  ghost predicate ShortAt(s: string, p: nat) {
    exists t, w :: At(s, p, Written(t, w)) && |t| < MIN_FREE_TEXT_TERM_LENGTH && if w.Bare? then PlainWord(t) else QuotedAs(t, w)
  }

  /** A value that its tag does not take. */
  ghost predicate MistypedIn(g: Language, s: string) {
    exists p, word, op, after, v, w :: MistypedAt(g, s, p, word, op, after, v, w)
  }

  predicate MistypedAt(g: Language, s: string, p: nat, word: string, op: Op, after: nat, v: string, w: Writing) {
    && TagAt(s, p, word, op, after) && At(s, after, Written(v, w)) && (if w.Bare? then PlainValue(v) else QuotedAs(v, w))
    && Lower(word) in g.index && !TypedField(g.dec, g.index[Lower(word)], op, v)
  }

  /** A connective, and then the input ends or a parenthesis closes. */
  predicate Dangling(s: string, p: nat, kw: string, sym: string)
    requires p <= |s|
  {
    var q := SkipSpace(s, p);
    || (KeywordAt(s, q, kw) && Closed(s, SkipSpace(s, q + |kw|)))
    || (SymbolAt(s, q, sym) && Closed(s, SkipSpace(s, q + |sym|)))
  }

  /** What the error says of the input; positions count from one. */
  ghost predicate TrueOf(g: Language, s: string, e: ParseError) {
    match e
    case QueryTooLong => |s| > 1000
    case QueryEmpty => Gap(s)
    case Unexpected(at) => 1 <= at <= |s| && (s[at - 1] == ')' || IsOpChar(s[at - 1]))
    case MissingOperand(after, at) =>
      && 1 <= at <= |s| + 1
      && (if after == "NOT" then Closed(s, at - 1)
          else (after == "AND" && Dangling(s, at - 1, "AND", "&&")) || (after == "OR" && Dangling(s, at - 1, "OR", "||")))
    case MissingParenthesis(at) => 1 <= at <= |s| && s[at - 1] == '('
    case EmptyParentheses(at) => 1 <= at < |s| && s[at - 1] == '(' && SkipSpace(s, at) < |s| && s[SkipSpace(s, at)] == ')'
    case TooManyTerms => true
    case TooManyFreeTextTerms => true
    case FreeTextTooShort(at) => 1 <= at <= |s| && ShortAt(s, at - 1)
    case UnknownField(at) => 1 <= at <= |s| && UnknownAt(g, s, at - 1)
    case MissingValue(at) => 1 <= at <= |s| && NoValueAt(s, at - 1)
    case UnterminatedQuote(at) => 1 <= at <= |s| && Unclosed(s, at - 1)
    case BadCondition => MistypedIn(g, s)
  }

  ghost predicate Honest(g: Language, s: string, r: Result) { r.Err? ==> TrueOf(g, s, r.error) }

  // --- Conditions ---------------------------------------------------------------------------

  lemma AtSlice(s: string, i: nat, j: nat)
    requires i <= j <= |s|
    ensures At(s, i, s[i..j])
  {
  }

  lemma ShortTerm(s: string, p: nat, e: nat, t: string, w: Writing)
    requires p <= e <= |s| && s[p..e] == Written(t, w) && if w.Bare? then PlainWord(t) else QuotedAs(t, w)
    ensures |t| < MIN_FREE_TEXT_TERM_LENGTH ==> ShortAt(s, p)
  {
    hide At, Written, PlainWord, QuotedAs;
    AtSlice(s, p, e);
  }

  lemma QuotedTermHonest(g: Language, s: string, st: State)
    requires st.pos < |s| && IsQuote(s[st.pos])
    ensures Honest(g, s, ParseCondition(g, s, st))
  {
    hide Quoted, QuotedAs, WordCondition, ShortAt, Written, UnknownAt, NoValueAt, MistypedIn;
    var p := st.pos;
    var q := Quoted(s, p + 1, s[p]);
    if q.Some? {
      var w := QuotesAreSpelled(s, p);
      ShortTerm(s, p, q.value.1, q.value.0, w);
    }
  }

  /** The word in front of an operator, and the operator. */
  lemma TagStands(s: string, p: nat)
    requires p < |s| && !IsQuote(s[p]) && WordEnd(s, p) > p && OperatorAt(s, WordEnd(s, p)).Some?
    ensures var q, op := WordEnd(s, p), OperatorAt(s, WordEnd(s, p)).value;
            TagAt(s, p, s[p..q], op, q + |OpText(op)|)
  {
    hide PlainWord, OperatorAt, WordEnd, OpText;
    var q, op := WordEnd(s, p), OperatorAt(s, WordEnd(s, p)).value;
    BareIsPlain(s, p);
    OperatorIsSpelled(s, q);
    Cut(s, p, q, q + |OpText(op)|);
  }

  lemma FreeTextHonest(g: Language, s: string, t: string, p: nat, st: State)
    requires p < |s| && (|t| < MIN_FREE_TEXT_TERM_LENGTH ==> ShortAt(s, p))
    ensures Honest(g, s, FreeTextResult(t, p, st))
  {
    hide ShortAt, UnknownAt, NoValueAt, MistypedIn, Unclosed;
  }

  lemma BareTermHonest(g: Language, s: string, st: State)
    requires st.pos < |s| && !IsQuote(s[st.pos]) && WordEnd(s, st.pos) > st.pos && OperatorAt(s, WordEnd(s, st.pos)).None?
    ensures Honest(g, s, WordCondition(g, s, st))
  {
    hide PlainWord, OperatorAt, WordEnd, ShortAt, TrueOf, ReadValue, LookupField, TypedField, FreeTextResult, QuotedAs;
    var p, q := st.pos, WordEnd(s, st.pos);
    BareIsPlain(s, p);
    ShortTerm(s, p, q, s[p..q], Bare);
    FreeTextHonest(g, s, s[p..q], p, st.(pos := q));
  }

  lemma EmptyValueMeans(s: string, p: nat)
    requires p <= |s| && ReadValue(s, p).Some? && ReadValue(s, p).value.0 == ""
    ensures Boundary(s, p) || EmptyQuotes(s, p)
  {
  }

  lemma UnclosedValue(s: string, p: nat)
    requires p <= |s| && ReadValue(s, p).None?
    ensures Unclosed(s, p)
  {
  }

  lemma TagHonest(g: Language, s: string, st: State)
    requires st.pos < |s| && !IsQuote(s[st.pos]) && WordEnd(s, st.pos) > st.pos && OperatorAt(s, WordEnd(s, st.pos)).Some?
    ensures Honest(g, s, WordCondition(g, s, st))
  {
    hide PlainValue, QuotedAs, OperatorAt, WordEnd, OpText, ReadValue, Boundary, EmptyQuotes, Unclosed, TagAt, TypedField, ShortAt;
    var p, q := st.pos, WordEnd(s, st.pos);
    var op := OperatorAt(s, q).value;
    var m := q + |OpText(op)|;
    TagStands(s, p);
    var v := ReadValue(s, m);
    if v.None? {
      UnclosedValue(s, m);
    } else if v.value.0 == "" {
      EmptyValueMeans(s, m);
      assert NoValueAt(s, p);
    } else {
      var w := ValueIsSpelled(s, m);
      AtSlice(s, m, v.value.1);
      assert Lower(s[p..q]) in g.index && !TypedField(g.dec, g.index[Lower(s[p..q])], op, v.value.0)
        ==> MistypedAt(g, s, p, s[p..q], op, m, v.value.0, w);
    }
  }

  lemma ConditionHonest(g: Language, s: string, st: State)
    requires st.pos < |s| && !IsSpace(s[st.pos]) && !IsParen(s[st.pos])
    ensures Honest(g, s, ParseCondition(g, s, st))
  {
    hide WordCondition, OperatorAt, TrueOf;
    if IsQuote(s[st.pos]) {
      QuotedTermHonest(g, s, st);
    } else if WordEnd(s, st.pos) == st.pos {
      NoWordHonest(g, s, st);
    } else if OperatorAt(s, WordEnd(s, st.pos)).None? {
      BareTermHonest(g, s, st.(terms := st.terms + 1));
      TooManyHonest(g, s);
    } else {
      TagHonest(g, s, st.(terms := st.terms + 1));
      TooManyHonest(g, s);
    }
  }

  lemma TooManyHonest(g: Language, s: string)
    ensures TrueOf(g, s, TooManyTerms)
  {
  }

  lemma NoWordHonest(g: Language, s: string, st: State)
    requires st.pos < |s| && !IsSpace(s[st.pos]) && !IsParen(s[st.pos]) && !IsQuote(s[st.pos]) && WordEnd(s, st.pos) == st.pos
    ensures Honest(g, s, ParseCondition(g, s, st))
  {
  }

  // --- The grammar -------------------------------------------------------------------------------

  lemma ConditionStarts(s: string, p: nat)
    requires p <= |s| && StartAt(s, p).Condition?
    ensures var q := StartAt(s, p).at; q < |s| && !IsSpace(s[q]) && !IsParen(s[q])
  {
  }

  lemma {:induction false} UnaryHonest(g: Language, s: string, st: State)
    requires st.pos <= |s|
    ensures Honest(g, s, ParseUnary(g, s, st))
    decreases |s| - st.pos, 1
  {
    hide ParseCondition, ParseOr, StartAt, ShortAt, UnknownAt, NoValueAt, Unclosed, MistypedIn;
    match StartAt(s, st.pos)
    case Negation(p) =>
      UnaryHonest(g, s, st.(pos := p));
      NothingNegated(g, s, st.(pos := p));
    case Group(p) => GroupHonest(g, s, st, p);
    case Nothing(p) =>
    case Condition(p) =>
      ConditionStarts(s, st.pos);
      ConditionHonest(g, s, st.(pos := p));
  }

  lemma NothingNegated(g: Language, s: string, st: State)
    requires st.pos <= |s|
    ensures var r := ParseUnary(g, s, st); r.Got? && r.node.None? ==> Closed(s, r.st.pos)
  {
    hide ParseUnary, Closed;
    var r := ParseUnary(g, s, st);
    if r.Got? && r.node.None? {
      NoOperandRead(g, s, st);
      NothingStartsUnary(g, s, st);
    }
  }

  lemma CloseGroupHonest(g: Language, s: string, open: nat, r: Result)
    requires open < |s| && s[open] == '(' && Honest(g, s, r) && (r.Got? ==> r.st.pos <= |s|)
    requires r.Got? && r.node.None? ==> r.st.pos == SkipSpace(s, open + 1)
    ensures Honest(g, s, CloseGroup(s, open, r))
  {
    hide ShortAt, UnknownAt, NoValueAt, Unclosed, MistypedIn, SkipSpace, Dangling, Closed, StartAt, AndLink, OrLink;
    SpaceSkipped(s, open + 1);
  }

  lemma {:induction false} GroupHonest(g: Language, s: string, st: State, p: nat)
    requires st.pos <= |s| && StartAt(s, st.pos) == Group(p)
    ensures Honest(g, s, ParseUnary(g, s, st))
    decreases |s| - st.pos, 0
  {
    hide ParseOr, StartAt, TrueOf, SkipSpace, CloseGroup;
    OtherStarts(s, st.pos);
    OrHonest(g, s, st.(pos := p + 1));
    var r := ParseOr(g, s, st.(pos := p + 1));
    if r.Got? && r.node.None? { NothingRead(g, s, st.(pos := p + 1)); }
    CloseGroupHonest(g, s, p, r);
  }

  /** Where a list of conditions is not there, only white space was read. */
  lemma NothingRead(g: Language, s: string, st: State)
    requires st.pos <= |s| && ParseOr(g, s, st).Got? && ParseOr(g, s, st).node.None?
    ensures ParseOr(g, s, st).st.pos == SkipSpace(s, st.pos)
  {
    hide SkipSpace;
    NoOperandRead(g, s, st);
  }

  lemma NoOperandRead(g: Language, s: string, st: State)
    requires st.pos <= |s| && ParseUnary(g, s, st).Got? && ParseUnary(g, s, st).node.None?
    ensures ParseUnary(g, s, st).st.pos == SkipSpace(s, st.pos)
  {
    hide ParseOr, ParseCondition;
  }

  lemma {:induction false} AndHonest(g: Language, s: string, st: State)
    requires st.pos <= |s|
    ensures Honest(g, s, ParseAnd(g, s, st))
    decreases |s| - st.pos, 4
  {
    hide ParseUnary, AndRest, TrueOf;
    UnaryHonest(g, s, st);
    var r := ParseUnary(g, s, st);
    if r.Got? && r.node.Some? { AndRestHonest(g, s, [r.node.value], r.st); }
  }

  lemma {:induction false} AndOperandHonest(g: Language, s: string, st: State)
    requires st.pos <= |s|
    ensures AndOperand(g, s, st).Bad? ==> TrueOf(g, s, AndOperand(g, s, st).error)
    decreases |s| - st.pos, 2
  {
    hide ParseUnary, AndLink, ShortAt, UnknownAt, NoValueAt, Unclosed, MistypedIn, SkipSpace, Dangling;
    var next := st.(pos := AndLink(s, st.pos).at);
    UnaryHonest(g, s, next);
    var r := ParseUnary(g, s, next);
    if AndLink(s, st.pos).Continues? && r.Got? && r.node.None? {
      NothingStartsUnary(g, s, next);
      AndDangles(s, st.pos);
    }
  }

  lemma AndDangles(s: string, p: nat)
    requires p <= |s| && AndLink(s, p).Continues? && Closed(s, SkipSpace(s, AndLink(s, p).at))
    ensures AndLink(s, p).demanded ==> Dangling(s, p, "AND", "&&")
  {
    hide SkipSpace, KeywordAt, SymbolAt, Closed;
  }

  lemma OrDangles(s: string, p: nat)
    requires p <= |s| && OrLink(s, p).Continues? && Closed(s, SkipSpace(s, OrLink(s, p).at))
    ensures Dangling(s, p, "OR", "||")
  {
    hide SkipSpace, KeywordAt, SymbolAt, Closed;
  }

  lemma {:induction false} AndRestHonest(g: Language, s: string, done: seq<Node>, st: State)
    requires done != [] && st.pos <= |s|
    ensures Honest(g, s, AndRest(g, s, done, st))
    decreases |s| - st.pos, 3
  {
    hide AndOperand, TrueOf;
    AndOperandHonest(g, s, st);
    var o := AndOperand(g, s, st);
    if o.Next? { AndRestHonest(g, s, done + [o.node], o.st); }
  }

  lemma {:induction false} OrHonest(g: Language, s: string, st: State)
    requires st.pos <= |s|
    ensures Honest(g, s, ParseOr(g, s, st))
    decreases |s| - st.pos, 5
  {
    hide ParseAnd, OrRest, TrueOf;
    AndHonest(g, s, st);
    var r := ParseAnd(g, s, st);
    if r.Got? && r.node.Some? { OrRestHonest(g, s, [r.node.value], r.st); }
  }

  lemma {:induction false} OrOperandHonest(g: Language, s: string, st: State)
    requires st.pos <= |s|
    ensures OrOperand(g, s, st).Bad? ==> TrueOf(g, s, OrOperand(g, s, st).error)
    decreases |s| - st.pos, 2
  {
    hide ParseAnd, OrLink, ShortAt, UnknownAt, NoValueAt, Unclosed, MistypedIn, SkipSpace, Dangling;
    var l := OrLink(s, st.pos);
    if l.Continues? {
      var next := st.(pos := l.at);
      AndHonest(g, s, next);
      var r := ParseAnd(g, s, next);
      if r.Got? && r.node.None? {
        NoAndIsNoOperand(g, s, next);
        NothingStartsUnary(g, s, next);
        OrDangles(s, st.pos);
      }
    }
  }

  lemma NoAndIsNoOperand(g: Language, s: string, st: State)
    requires st.pos <= |s| && ParseAnd(g, s, st).Got? && ParseAnd(g, s, st).node.None?
    ensures ParseUnary(g, s, st).Got? && ParseUnary(g, s, st).node.None?
  {
    hide ParseUnary;
  }

  lemma {:induction false} OrRestHonest(g: Language, s: string, done: seq<Node>, st: State)
    requires done != [] && st.pos <= |s|
    ensures Honest(g, s, OrRest(g, s, done, st))
    decreases |s| - st.pos, 3
  {
    hide OrOperand, TrueOf;
    OrOperandHonest(g, s, st);
    var o := OrOperand(g, s, st);
    if o.Next? { OrRestHonest(g, s, done + [o.node], o.st); }
  }

  /** Whatever error a query is refused with is true of it. */
  lemma ErrorsAreTrue(g: Language, s: string)
    requires Parse(g, s).Refused?
    ensures TrueOf(g, s, Parse(g, s).error)
  {
    hide ParseOr, ShortAt, UnknownAt, NoValueAt, Unclosed, MistypedIn, SkipSpace;
    if |s| <= MAX_QUERY_LENGTH {
      var st := State(0, 0, 0);
      OrHonest(g, s, st);
      var r := ParseOr(g, s, st);
      if r.Got? && r.node.Some? { OrEndsClosed(g, s, st); }
      if r.Got? && r.node.None? {
        NothingRead(g, s, st);
        SpaceSkipped(s, 0);
        NothingStarts(g, s, st);
        if SkipSpace(s, 0) == |s| { AllSpace(s); }
      }
    }
  }

  lemma AllSpace(s: string)
    requires SkipSpace(s, 0) == |s|
    ensures Gap(s)
  {
  }

  /** Without a condition the input is at its end or at a closing parenthesis. */
  lemma NothingStarts(g: Language, s: string, st: State)
    requires st.pos <= |s| && ParseOr(g, s, st).Got? && ParseOr(g, s, st).node.None?
    ensures Closed(s, SkipSpace(s, st.pos))
  {
    hide ParseCondition, SkipSpace, AndRest, OrRest, CloseGroup, Negate;
    NothingStartsUnary(g, s, st);
  }

  lemma NothingStartsUnary(g: Language, s: string, st: State)
    requires st.pos <= |s| && ParseUnary(g, s, st).Got? && ParseUnary(g, s, st).node.None?
    ensures Closed(s, SkipSpace(s, st.pos))
  {
    hide ParseCondition, ParseOr, KeywordAt, SymbolAt;
  }

  /** A list of conditions ends at the end of the input or at a closing parenthesis. */
  lemma OrEndsClosed(g: Language, s: string, st: State)
    requires st.pos <= |s| && ParseOr(g, s, st).Got? && ParseOr(g, s, st).node.Some?
    ensures Closed(s, ParseOr(g, s, st).st.pos)
  {
    hide ParseAnd, OrRest, ListEnds, AndOf, LexicalAnd, AndText, AndItems, Gap;
    var a := ParseAnd(g, s, st);
    var e, tail := AndIsSpelled(g, s, st);
    OrRestEndsClosed(g, s, [a.node.value], a.st);
  }

  lemma {:induction false} OrRestEndsClosed(g: Language, s: string, done: seq<Node>, st: State)
    requires done != [] && ListEnds(s, st.pos) && OrRest(g, s, done, st).Got?
    ensures Closed(s, OrRest(g, s, done, st).st.pos)
    decreases |s| - st.pos
  {
    hide ParseAnd, AndOf, OrOf, LexicalAnd, AndText, AndItems, Gap, KeywordAt, SymbolAt, IsWord;
    var l := OrLink(s, st.pos);
    if l.Continues? {
      var a := ParseAnd(g, s, st.(pos := l.at));
      var e, tail := AndIsSpelled(g, s, st.(pos := l.at));
      OrRestEndsClosed(g, s, done + [a.node.value], a.st);
    } else {
      OrStopsHere(s, st.pos);
    }
  }

  lemma OrStopsHere(s: string, p: nat)
    requires ListEnds(s, p) && OrLink(s, p).Ends?
    ensures OrLink(s, p).at == p && Closed(s, p)
  {
  }
}
