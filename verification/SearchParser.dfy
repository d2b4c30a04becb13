// The recursive-descent parser of the search language: its grammar as functions
// of the input and the parser state, and the parser object that computes them.

module SearchParser {
  import opened Common
  import opened Like
  import opened SearchSyntax

  const MAX_QUERY_LENGTH := 1000
  const MAX_QUERY_TERMS := 50
  const MAX_FREE_TEXT_TERMS := 5
  const MIN_FREE_TEXT_TERM_LENGTH := 3

  /** The tag index, keyed by lower-cased names and aliases, and the library value parsers. */
  datatype Language = Language(index: map<string, Field>, dec: Decoders)

  function LookupField(g: Language, word: string): Option<Field> {
    if Lower(word) in g.index then Some(g.index[Lower(word)]) else None
  }

  /** Error positions count from one. */
  datatype ParseError =
    | QueryTooLong
    | QueryEmpty
    | Unexpected(at: nat)
    | MissingOperand(after: string, at: nat)
    | MissingParenthesis(at: nat)
    | EmptyParentheses(at: nat)
    | TooManyTerms
    | TooManyFreeTextTerms
    | FreeTextTooShort(at: nat)
    | UnknownField(at: nat)
    | MissingValue(at: nat)
    | UnterminatedQuote(at: nat)
    | BadCondition

  datatype State = State(pos: nat, terms: nat, free: nat)

  datatype Result = Got(node: Option<Node>, st: State) | Err(error: ParseError)

  // --- Scanning ------------------------------------------------------------------

  predicate IsSpace(c: char) { c in {' ', '\t', '\n', '\r'} }

  predicate IsParen(c: char) { c in {'(', ')'} }

  predicate IsOpChar(c: char) { c in {':', '=', '<', '>', '!'} }

  predicate EndsWord(c: char) { IsSpace(c) || IsParen(c) || IsOpChar(c) }

  predicate EndsValue(c: char) { IsSpace(c) || IsParen(c) }

  function SkipSpace(s: string, pos: nat): (p: nat)
    requires pos <= |s|
    ensures pos <= p <= |s| && (p < |s| ==> !IsSpace(s[p]))
    ensures forall i | pos <= i < p :: IsSpace(s[i])
    decreases |s| - pos
  {
    if pos < |s| && IsSpace(s[pos]) then SkipSpace(s, pos + 1) else pos
  }

  function WordEnd(s: string, pos: nat): (p: nat)
    requires pos <= |s|
    ensures pos <= p <= |s|
    decreases |s| - pos
  {
    if pos < |s| && !EndsWord(s[pos]) then WordEnd(s, pos + 1) else pos
  }

  function ValueEnd(s: string, pos: nat): (p: nat)
    requires pos <= |s|
    ensures pos <= p <= |s|
    decreases |s| - pos
  {
    if pos < |s| && !EndsValue(s[pos]) then ValueEnd(s, pos + 1) else pos
  }

  /** The unescaped text up to the closing quote and the position after it. */
  function Quoted(s: string, pos: nat, quote: char): (r: Option<(string, nat)>)
    requires pos <= |s|
    ensures r.Some? ==> pos < r.value.1 <= |s|
    decreases |s| - pos
  {
    if pos == |s| then None
    else if s[pos] == '\\' && pos + 1 < |s| then Push(s[pos + 1], Quoted(s, pos + 2, quote))
    else if s[pos] == quote then Some(([], pos + 1))
    else Push(s[pos], Quoted(s, pos + 1, quote))
  }

  function Push(c: char, r: Option<(string, nat)>): Option<(string, nat)> {
    if r.None? then None else Some(([c] + r.value.0, r.value.1))
  }

  predicate KeywordAt(s: string, pos: nat, kw: string) {
    var end := pos + |kw|;
    end <= |s| && Lower(s[pos..end]) == Lower(kw) && (end == |s| || EndsValue(s[end]))
  }

  predicate SymbolAt(s: string, pos: nat, sym: string) {
    var end := pos + |sym|;
    && end <= |s| && s[pos..end] == sym
    && !(sym == "-" && (end == |s| || s[end] == ' '))
  }

  /** Skip spaces, then consume the keyword or else the symbol: whether one was there, and the position reached. */
  function Consume(s: string, pos: nat, kw: string, sym: string): (r: (bool, nat))
    requires pos <= |s|
    ensures pos <= r.1 <= |s|
    ensures r.0 && kw != [] && sym != [] ==> pos < r.1
    ensures !r.0 ==> r.1 == SkipSpace(s, pos)
  {
    var p := SkipSpace(s, pos);
    if KeywordAt(s, p, kw) then (true, p + |kw|)
    else if SymbolAt(s, p, sym) then (true, p + |sym|)
    else (false, p)
  }

  /** The operator at a position and its width; None leaves the position alone. */
  function OperatorAt(s: string, pos: nat): (r: Option<Op>)
    requires pos <= |s|
    ensures r.Some? ==> pos + |OpText(r.value)| <= |s|
  {
    var two := if pos + 1 < |s| then s[pos..pos + 2] else "";
    if two == ">=" then Some(Ge)
    else if two == "<=" then Some(Le)
    else if two == "!=" then Some(Ne)
    else if pos == |s| then None
    else if s[pos] == ':' then Some(Colon)
    else if s[pos] == '=' then Some(Eq)
    else if s[pos] == '>' then Some(Gt)
    else if s[pos] == '<' then Some(Lt)
    else None
  }

  // --- The grammar -----------------------------------------------------------------

  predicate IsQuote(c: char) { c in {'"', '\''} }

  function FreeTextResult(term: string, start: nat, st: State): Result {
    if st.free + 1 > MAX_FREE_TEXT_TERMS then Err(TooManyFreeTextTerms)
    else if |term| < MIN_FREE_TEXT_TERM_LENGTH then Err(FreeTextTooShort(start + 1))
    else Got(Some(Leaf(FreeText(term))), st.(free := st.free + 1))
  }

  /** readValue at `p`: a quoted text or a run up to whitespace or a parenthesis. */
  function ReadValue(s: string, p: nat): (r: Option<(string, nat)>)
    requires p <= |s|
    ensures r.Some? ==> p <= r.value.1 <= |s|
  {
    if p < |s| && IsQuote(s[p]) then Quoted(s, p + 1, s[p])
    else Some((s[p..ValueEnd(s, p)], ValueEnd(s, p)))
  }

  /** A condition that starts with a word: `field OP value`, or a bare term. */
  function WordCondition(g: Language, s: string, st: State): (r: Result)
    requires st.pos < |s|
    ensures r.Got? ==> r.node.Some? && st.pos < r.st.pos <= |s|
  {
    var start, end := st.pos, WordEnd(s, st.pos);
    var op := OperatorAt(s, end);
    if end == start then Err(Unexpected(start + 1))
    else if op.None? then FreeTextResult(s[start..end], start, st.(pos := end))
    else
      var f := LookupField(g, s[start..end]);
      var p := end + |OpText(op.value)|;
      var v := ReadValue(s, p);
      if f.None? then Err(UnknownField(start + 1))
      else if v.None? then Err(UnterminatedQuote(p + 1))
      else if v.value.0 == "" then Err(MissingValue(start + 1))
      else if !TypedField(g.dec, f.value, op.value, v.value.0) then Err(BadCondition)
      else Got(Some(Leaf(Tagged(f.value, op.value, v.value.0))), st.(pos := v.value.1))
  }

  function ParseCondition(g: Language, s: string, st: State): (r: Result)
    requires st.pos < |s|
    ensures r.Got? ==> r.node.Some? && st.pos < r.st.pos <= |s|
  {
    var counted := st.(terms := st.terms + 1);
    if counted.terms > MAX_QUERY_TERMS then Err(TooManyTerms)
    else if IsQuote(s[st.pos]) then
      var q := Quoted(s, st.pos + 1, s[st.pos]);
      if q.None? then Err(UnterminatedQuote(st.pos + 1))
      else FreeTextResult(q.value.0, st.pos, counted.(pos := q.value.1))
    else WordCondition(g, s, counted)
  }

  /** What an operand starts with, and where. */
  datatype Start = Negation(at: nat) | Group(at: nat) | Nothing(at: nat) | Condition(at: nat)

  function StartAt(s: string, pos: nat): (r: Start)
    requires pos <= |s|
    ensures pos <= r.at <= |s|
    ensures r.Negation? ==> pos < r.at
    ensures r.Group? || r.Condition? ==> r.at < |s|
  {
    var c := Consume(s, pos, "NOT", "-");
    var p := c.1;
    if c.0 then Negation(p)
    else if p < |s| && s[p] == '(' then Group(p)
    else if p == |s| || s[p] == ')' then Nothing(p)
    else Condition(p)
  }

  function Negate(r: Result): Result {
    if r.Err? then r
    else if r.node.None? then Err(MissingOperand("NOT", r.st.pos + 1))
    else Got(Some(Not(r.node.value)), r.st)
  }

  /** The group opened at `open` ends where its inside was read, or not at all. */
  function CloseGroup(s: string, open: nat, r: Result): (closed: Result)
    requires r.Got? ==> r.st.pos <= |s|
    ensures closed.Got? ==> r.Got? && closed.node == r.node && r.node.Some? && r.st.pos < closed.st.pos <= |s|
  {
    if r.Err? then r
    else
      var q := SkipSpace(s, r.st.pos);
      if q == |s| || s[q] != ')' then Err(MissingParenthesis(open + 1))
      else if r.node.None? then Err(EmptyParentheses(open + 1))
      else Got(r.node, r.st.(pos := q + 1))
  }

  function ParseUnary(g: Language, s: string, st: State): (r: Result)
    requires st.pos <= |s|
    ensures r.Got? ==> st.pos <= r.st.pos <= |s| && (r.node.Some? ==> st.pos < r.st.pos)
    decreases |s| - st.pos, 1
  {
    match StartAt(s, st.pos)
    case Negation(p) => Negate(ParseUnary(g, s, st.(pos := p)))
    case Group(p) => CloseGroup(s, p, ParseOr(g, s, st.(pos := p + 1)))
    case Nothing(p) => Got(None, st.(pos := p))
    case Condition(p) => ParseCondition(g, s, st.(pos := p))
  }

  function AndOf(ns: seq<Node>): Node
    requires ns != []
  {
    if |ns| == 1 then ns[0] else And(ns)
  }

  function OrOf(ns: seq<Node>): Node
    requires ns != []
  {
    if |ns| == 1 then ns[0] else Or(ns)
  }

  /** What follows an operand: the end of the list, one more operand, or an error. */
  datatype Operand = Stop(st: State) | Next(node: Node, st: State) | Bad(error: ParseError)

  function ParseAnd(g: Language, s: string, st: State): (r: Result)
    requires st.pos <= |s|
    ensures r.Got? ==> st.pos <= r.st.pos <= |s| && (r.node.Some? ==> st.pos < r.st.pos)
    decreases |s| - st.pos, 4
  {
    var r := ParseUnary(g, s, st);
    if r.Err? || r.node.None? then r else AndRest(g, s, [r.node.value], r.st)
  }

  /** Whether the list may go on, where its next operand starts, and whether a connective demanded one. */
  datatype Link = Ends(at: nat) | Continues(at: nat, demanded: bool)

  function AndLink(s: string, pos: nat): (l: Link)
    requires pos <= |s|
    ensures pos <= l.at <= |s|
  {
    var c := Consume(s, pos, "AND", "&&");
    if !c.0 && KeywordAt(s, SkipSpace(s, c.1), "OR") then Ends(c.1) else Continues(c.1, c.0)
  }

  function OrLink(s: string, pos: nat): (l: Link)
    requires pos <= |s|
    ensures pos <= l.at <= |s|
    ensures l.Continues? ==> pos < l.at && l.demanded
  {
    var c := Consume(s, pos, "OR", "||");
    if !c.0 then Ends(c.1) else Continues(c.1, true)
  }

  function AsOperand(r: Result, demanded: bool, after: string, at: nat): Operand {
    if r.Err? then Bad(r.error)
    else if r.node.Some? then Next(r.node.value, r.st)
    else if demanded then Bad(MissingOperand(after, at + 1))
    else Stop(r.st)
  }

  /** One pass of parseAnd's loop: an OR ends the list, AND is optional. */
  function AndOperand(g: Language, s: string, st: State): (r: Operand)
    requires st.pos <= |s|
    ensures r.Stop? ==> st.pos <= r.st.pos <= |s|
    ensures r.Next? ==> st.pos < r.st.pos <= |s|
    decreases |s| - st.pos, 2
  {
    match AndLink(s, st.pos)
    case Ends(p) => Stop(st.(pos := p))
    case Continues(p, demanded) => AsOperand(ParseUnary(g, s, st.(pos := p)), demanded, "AND", st.pos)
  }

  /** The loop of parseAnd with the operands read so far. */
  function AndRest(g: Language, s: string, done: seq<Node>, st: State): (r: Result)
    requires done != [] && st.pos <= |s|
    ensures r.Got? ==> r.node.Some? && st.pos <= r.st.pos <= |s|
    decreases |s| - st.pos, 3
  {
    match AndOperand(g, s, st)
    case Stop(st') => Got(Some(AndOf(done)), st')
    case Bad(e) => Err(e)
    case Next(n, st') => AndRest(g, s, done + [n], st')
  }

  function ParseOr(g: Language, s: string, st: State): (r: Result)
    requires st.pos <= |s|
    ensures r.Got? ==> st.pos <= r.st.pos <= |s| && (r.node.Some? ==> st.pos < r.st.pos)
    decreases |s| - st.pos, 5
  {
    var r := ParseAnd(g, s, st);
    if r.Err? || r.node.None? then r else OrRest(g, s, [r.node.value], r.st)
  }

  /** One pass of parseOr's loop. */
  function OrOperand(g: Language, s: string, st: State): (r: Operand)
    requires st.pos <= |s|
    ensures r.Stop? ==> st.pos <= r.st.pos <= |s|
    ensures r.Next? ==> st.pos < r.st.pos <= |s|
    decreases |s| - st.pos, 2
  {
    match OrLink(s, st.pos)
    case Ends(p) => Stop(st.(pos := p))
    case Continues(p, demanded) => AsOperand(ParseAnd(g, s, st.(pos := p)), demanded, "OR", st.pos)
  }

  /** The loop of parseOr with the operands read so far. */
  function OrRest(g: Language, s: string, done: seq<Node>, st: State): (r: Result)
    requires done != [] && st.pos <= |s|
    ensures r.Got? ==> r.node.Some? && st.pos <= r.st.pos <= |s|
    decreases |s| - st.pos, 3
  {
    match OrOperand(g, s, st)
    case Stop(st') => Got(Some(OrOf(done)), st')
    case Bad(e) => Err(e)
    case Next(n, st') => OrRest(g, s, done + [n], st')
  }

  datatype Parsed = Query(root: Node) | Refused(error: ParseError)

  function Parse(g: Language, s: string): Parsed {
    if |s| > MAX_QUERY_LENGTH then Refused(QueryTooLong)
    else
      var r := ParseOr(g, s, State(0, 0, 0));
      if r.Err? then Refused(r.error)
      else
        var p := SkipSpace(s, r.st.pos);
        if p < |s| then Refused(Unexpected(p + 1))
        else if r.node.None? then Refused(QueryEmpty)
        else Query(r.node.value)
  }

  // --- What every parse result is -----------------------------------------------------

  /** A tree the parser can return: connectives have two operands or more, tags
      are the indexed ones, values are nonempty and free terms long enough. */
  ghost predicate Shaped(g: Language, n: Node)
    decreases n, 1
  {
    match n
    case And(cs) => |cs| >= 2 && ShapedAll(g, cs)
    case Or(cs) => |cs| >= 2 && ShapedAll(g, cs)
    case Not(c) => Shaped(g, c)
    case Leaf(Tagged(f, op, v)) => f in g.index.Values && v != "" && TypedField(g.dec, f, op, v)
    case Leaf(FreeText(t)) => |t| >= MIN_FREE_TEXT_TERM_LENGTH
  }

  ghost predicate ShapedAll(g: Language, ns: seq<Node>)
    decreases ns, 0
  {
    ns == [] || (Shaped(g, ns[0]) && ShapedAll(g, ns[1..]))
  }

  lemma {:induction false} ShapedAppend(g: Language, ns: seq<Node>, n: Node)
    requires ShapedAll(g, ns) && Shaped(g, n)
    ensures ShapedAll(g, ns + [n])
  {
    if ns == [] {
      assert (ns + [n])[1..] == [];
    } else {
      assert (ns + [n])[1..] == ns[1..] + [n];
      ShapedAppend(g, ns[1..], n);
    }
  }

  lemma {:induction false} ShapedIsTyped(g: Language, n: Node)
    requires Shaped(g, n)
    ensures Typed(g.dec, n)
    decreases n, 1
  {
    match n
    case And(cs) => ShapedAllIsTyped(g, cs);
    case Or(cs) => ShapedAllIsTyped(g, cs);
    case Not(c) => ShapedIsTyped(g, c);
    case Leaf(_) =>
  }

  lemma {:induction false} ShapedAllIsTyped(g: Language, ns: seq<Node>)
    requires ShapedAll(g, ns)
    ensures TypedAll(g.dec, ns)
    decreases ns, 0
  {
    if ns != [] {
      ShapedIsTyped(g, ns[0]);
      ShapedAllIsTyped(g, ns[1..]);
    }
  }

  /** The counters advance by exactly the conditions of the node read, within both budgets. */
  ghost predicate Accounts(g: Language, r: Result, done: seq<Node>, st: State) {
    r.Got? ==>
      && (st.terms <= MAX_QUERY_TERMS ==> r.st.terms <= MAX_QUERY_TERMS)
      && (st.free <= MAX_FREE_TEXT_TERMS ==> r.st.free <= MAX_FREE_TEXT_TERMS)
      && (r.node.None? ==> r.st.terms == st.terms && r.st.free == st.free)
      && (r.node.Some? ==>
            && Shaped(g, r.node.value)
            && r.st.terms + TermsAll(done) == st.terms + Terms(r.node.value)
            && r.st.free + FreeTermsAll(done) == st.free + FreeTerms(r.node.value))
  }

  lemma ConditionAccounts(g: Language, s: string, st: State)
    requires st.pos < |s|
    ensures Accounts(g, ParseCondition(g, s, st), [], st)
  {
  }

  lemma NegateAccounts(g: Language, r: Result, st: State)
    requires Accounts(g, r, [], st)
    ensures Accounts(g, Negate(r), [], st)
  {
  }

  lemma {:induction false} UnaryAccounts(g: Language, s: string, st: State)
    requires st.pos <= |s|
    ensures Accounts(g, ParseUnary(g, s, st), [], st)
    decreases |s| - st.pos, 1
  {
    hide Shaped, ParseCondition, ParseOr, Terms, FreeTerms;
    match StartAt(s, st.pos)
    case Negation(p) =>
      UnaryAccounts(g, s, st.(pos := p));
      NegateAccounts(g, ParseUnary(g, s, st.(pos := p)), st);
    case Group(p) => OrAccounts(g, s, st.(pos := p + 1));
    case Nothing(p) =>
    case Condition(p) => ConditionAccounts(g, s, st.(pos := p));
  }

  lemma SingletonCounts(n: Node)
    ensures TermsAll([n]) == Terms(n) && FreeTermsAll([n]) == FreeTerms(n)
  {
    assert [n][1..] == [];
  }

  lemma {:induction false} AndAccounts(g: Language, s: string, st: State)
    requires st.pos <= |s|
    ensures Accounts(g, ParseAnd(g, s, st), [], st)
    decreases |s| - st.pos, 4
  {
    UnaryAccounts(g, s, st);
    var r := ParseUnary(g, s, st);
    if r.Got? && r.node.Some? {
      SingletonCounts(r.node.value);
      AndRestAccounts(g, s, [r.node.value], r.st);
    }
  }

  /** The result of one loop pass, as a parse of its operand alone. */
  function AsResult(o: Operand): Result {
    match o
    case Stop(st) => Got(None, st)
    case Next(n, st) => Got(Some(n), st)
    case Bad(e) => Err(e)
  }

  lemma {:induction false} AndOperandAccounts(g: Language, s: string, st: State)
    requires st.pos <= |s|
    ensures Accounts(g, AsResult(AndOperand(g, s, st)), [], st)
    decreases |s| - st.pos, 2
  {
    UnaryAccounts(g, s, st.(pos := AndLink(s, st.pos).at));
  }

  lemma {:induction false} AndRestAccounts(g: Language, s: string, done: seq<Node>, st: State)
    requires done != [] && st.pos <= |s| && ShapedAll(g, done)
    ensures Accounts(g, AndRest(g, s, done, st), done, st)
    decreases |s| - st.pos, 3
  {
    SingletonCounts(done[0]);
    AndOperandAccounts(g, s, st);
    var o := AndOperand(g, s, st);
    if o.Next? {
      ShapedAppend(g, done, o.node);
      BudgetAppend(done, o.node);
      AndRestAccounts(g, s, done + [o.node], o.st);
    }
  }

  lemma {:induction false} OrAccounts(g: Language, s: string, st: State)
    requires st.pos <= |s|
    ensures Accounts(g, ParseOr(g, s, st), [], st)
    decreases |s| - st.pos, 5
  {
    AndAccounts(g, s, st);
    var r := ParseAnd(g, s, st);
    if r.Got? && r.node.Some? {
      SingletonCounts(r.node.value);
      OrRestAccounts(g, s, [r.node.value], r.st);
    }
  }

  lemma {:induction false} OrOperandAccounts(g: Language, s: string, st: State)
    requires st.pos <= |s|
    ensures Accounts(g, AsResult(OrOperand(g, s, st)), [], st)
    decreases |s| - st.pos, 2
  {
    var l := OrLink(s, st.pos);
    if l.Continues? {
      AndAccounts(g, s, st.(pos := l.at));
    }
  }

  lemma {:induction false} OrRestAccounts(g: Language, s: string, done: seq<Node>, st: State)
    requires done != [] && st.pos <= |s| && ShapedAll(g, done)
    ensures Accounts(g, OrRest(g, s, done, st), done, st)
    decreases |s| - st.pos, 3
  {
    SingletonCounts(done[0]);
    OrOperandAccounts(g, s, st);
    var o := OrOperand(g, s, st);
    if o.Next? {
      ShapedAppend(g, done, o.node);
      BudgetAppend(done, o.node);
      OrRestAccounts(g, s, done + [o.node], o.st);
    }
  }

  /** On every input: a returned query is within both term budgets, and all its
      values passed validation, so compiling it cannot fail. */
  lemma ParseWithinBudgets(g: Language, s: string)
    requires Parse(g, s).Query?
    ensures var q := Parse(g, s).root;
            && Shaped(g, q) && Typed(g.dec, q)
            && 1 <= Terms(q) <= MAX_QUERY_TERMS && FreeTerms(q) <= MAX_FREE_TEXT_TERMS
  {
    OrAccounts(g, s, State(0, 0, 0));
    ShapedIsTyped(g, Parse(g, s).root);
    TermsPositive(g, Parse(g, s).root);
  }

  lemma {:induction false} TermsPositive(g: Language, n: Node)
    requires Shaped(g, n)
    ensures Terms(n) >= 1
  {
    match n
    case And(cs) => TermsPositive(g, cs[0]);
    case Or(cs) => TermsPositive(g, cs[0]);
    case Not(c) => TermsPositive(g, c);
    case Leaf(_) =>
  }

  // --- The parser object ----------------------------------------------------------------

  datatype Outcome = Ok(node: Option<Node>) | Fail(error: ParseError)

  class Parser {
    const g: Language
    const input: string
    var pos: nat
    var terms: nat
    var freeTextTerms: nat

    constructor (g: Language, input: string)
      ensures this.g == g && this.input == input && Here() == State(0, 0, 0)
    {
      this.g, this.input := g, input;
      pos, terms, freeTextTerms := 0, 0, 0;
    }

    ghost predicate Valid()
      reads this
    {
      pos <= |input|
    }

    function Here(): State
      reads this
    {
      State(pos, terms, freeTextTerms)
    }

    /** The outcome is the grammar's, and on success so is the state. */
    ghost predicate Agrees(o: Outcome, r: Result)
      reads this
    {
      match r
      case Got(node, st) => o == Ok(node) && Here() == st
      case Err(e) => o == Fail(e)
    }

    method Skip()
      requires Valid()
      modifies this`pos
      ensures pos == SkipSpace(input, old(pos))
    {
      while pos < |input| && IsSpace(input[pos])
        invariant pos <= |input| && SkipSpace(input, pos) == SkipSpace(input, old(pos))
      {
        pos := pos + 1;
      }
    }

    method ConsumeToken(kw: string, sym: string) returns (found: bool)
      requires Valid()
      modifies this`pos
      ensures (found, pos) == Consume(input, old(pos), kw, sym)
    {
      Skip();
      if KeywordAt(input, pos, kw) {
        pos := pos + |kw|;
        return true;
      }
      if SymbolAt(input, pos, sym) {
        pos := pos + |sym|;
        return true;
      }
      return false;
    }

    method ReadWord() returns (word: string)
      requires Valid()
      modifies this`pos
      ensures pos == WordEnd(input, old(pos)) && word == input[old(pos)..pos]
    {
      var start := pos;
      while pos < |input| && !EndsWord(input[pos])
        invariant start <= pos <= |input| && WordEnd(input, pos) == WordEnd(input, start)
      {
        pos := pos + 1;
      }
      word := input[start..pos];
    }

    method ReadOperator() returns (op: Option<Op>)
      requires Valid()
      modifies this`pos
      ensures op == OperatorAt(input, old(pos))
      ensures pos == old(pos) + if op.Some? then |OpText(op.value)| else 0
    {
      op := OperatorAt(input, pos);
      if op.Some? {
        pos := pos + |OpText(op.value)|;
      }
    }

    method ReadQuoted() returns (r: Option<string>)
      requires Valid() && pos < |input|
      modifies this`pos
      ensures Valid()
      ensures var q := Quoted(input, old(pos) + 1, input[old(pos)]);
              if q.None? then r == None else r == Some(q.value.0) && pos == q.value.1
    {
      var quote := input[pos];
      pos := pos + 1;
      ghost var whole := Quoted(input, pos, quote);
      var text := "";
      BeforeNothing(whole);
      while pos < |input|
        invariant pos <= |input|
        invariant whole == Before(text, Quoted(input, pos, quote))
      {
        var c := input[pos];
        if c == '\\' && pos + 1 < |input| {
          BeforePush(text, input[pos + 1], Quoted(input, pos + 2, quote));
          text := text + [input[pos + 1]];
          pos := pos + 2;
        } else if c == quote {
          pos := pos + 1;
          assert text + [] == text;
          return Some(text);
        } else {
          BeforePush(text, c, Quoted(input, pos + 1, quote));
          text := text + [c];
          pos := pos + 1;
        }
      }
      return None;
    }

    method ReadTagValue() returns (r: Option<string>)
      requires Valid()
      modifies this`pos
      ensures Valid()
      ensures var v := ReadValue(input, old(pos));
              if v.None? then r == None else r == Some(v.value.0) && pos == v.value.1
    {
      if pos < |input| && IsQuote(input[pos]) {
        r := ReadQuoted();
      } else {
        var start := pos;
        while pos < |input| && !EndsValue(input[pos])
          invariant start <= pos <= |input| && ValueEnd(input, pos) == ValueEnd(input, start)
        {
          pos := pos + 1;
        }
        r := Some(input[start..pos]);
      }
    }

    method FreeTextCondition(term: string, start: nat) returns (o: Outcome)
      requires Valid()
      modifies this`freeTextTerms
      ensures Agrees(o, FreeTextResult(term, start, old(Here())))
    {
      freeTextTerms := freeTextTerms + 1;
      if freeTextTerms > MAX_FREE_TEXT_TERMS { return Fail(TooManyFreeTextTerms); }
      if |term| < MIN_FREE_TEXT_TERM_LENGTH { return Fail(FreeTextTooShort(start + 1)); }
      return Ok(Some(Leaf(FreeText(term))));
    }

    method Word() returns (o: Outcome)
      requires Valid() && pos < |input|
      modifies this
      ensures Valid() && Agrees(o, WordCondition(g, input, old(Here())))
    {
      hide WordEnd, OperatorAt, LookupField, TypedField, Quoted, ValueEnd;
      var start := pos;
      var word := ReadWord();
      if word == "" { return Fail(Unexpected(start + 1)); }
      var op := ReadOperator();
      if op.None? {
        o := FreeTextCondition(word, start);
        return;
      }
      var f := LookupField(g, word);
      if f.None? { return Fail(UnknownField(start + 1)); }
      var valueAt := pos;
      var value := ReadTagValue();
      if value.None? { return Fail(UnterminatedQuote(valueAt + 1)); }
      if value.value == "" { return Fail(MissingValue(start + 1)); }
      if !TypedField(g.dec, f.value, op.value, value.value) { return Fail(BadCondition); }
      return Ok(Some(Leaf(Tagged(f.value, op.value, value.value))));
    }

    method ParseTerm() returns (o: Outcome)
      requires Valid() && pos < |input|
      modifies this
      ensures Valid() && Agrees(o, ParseCondition(g, input, old(Here())))
    {
      terms := terms + 1;
      if terms > MAX_QUERY_TERMS { return Fail(TooManyTerms); }
      if IsQuote(input[pos]) {
        var start := pos;
        var q := ReadQuoted();
        if q.None? { return Fail(UnterminatedQuote(start + 1)); }
        o := FreeTextCondition(q.value, start);
      } else {
        o := Word();
      }
    }

    method Unary() returns (o: Outcome)
      requires Valid()
      modifies this
      ensures Valid() && Agrees(o, ParseUnary(g, input, old(Here())))
      decreases |input| - pos, 1
    {
      hide ParseCondition, ParseOr, Consume;
      var negated := ConsumeToken("NOT", "-");
      if negated {
        o := Unary();
        if o.Fail? { return; }
        if o.node.None? { return Fail(MissingOperand("NOT", pos + 1)); }
        return Ok(Some(Not(o.node.value)));
      }
      if pos < |input| && input[pos] == '(' {
        o := Parenthesised();
      } else if pos == |input| || input[pos] == ')' {
        o := Ok(None);
      } else {
        o := ParseTerm();
      }
    }

    method Parenthesised() returns (o: Outcome)
      requires Valid() && pos < |input|
      modifies this
      ensures Valid() && Agrees(o, CloseGroup(input, old(pos), ParseOr(g, input, old(Here()).(pos := old(pos) + 1))))
      decreases |input| - pos, 0
    {
      var open := pos;
      pos := pos + 1;
      o := OrExpr();
      if o.Fail? { return; }
      Skip();
      if pos == |input| || input[pos] != ')' { return Fail(MissingParenthesis(open + 1)); }
      pos := pos + 1;
      if o.node.None? { return Fail(EmptyParentheses(open + 1)); }
    }

    /** One more operand, None at the end of the list. */
    method NextAndOperand() returns (o: Outcome)
      requires Valid()
      modifies this
      ensures Valid() && Agrees(o, AsResult(AndOperand(g, input, old(Here()))))
      decreases |input| - pos, 2
    {
      hide ParseUnary, Consume;
      var save := pos;
      var explicit := ConsumeToken("AND", "&&");
      if !explicit && KeywordAt(input, SkipSpace(input, pos), "OR") { return Ok(None); }
      o := Unary();
      if o.Ok? && o.node.None? && explicit { return Fail(MissingOperand("AND", save + 1)); }
    }

    method AndExpr() returns (o: Outcome)
      requires Valid()
      modifies this
      ensures Valid() && Agrees(o, ParseAnd(g, input, old(Here())))
      decreases |input| - pos, 4
    {
      hide ParseUnary, AndOperand;
      o := Unary();
      if o.Fail? || o.node.None? { return; }
      var children := [o.node.value];
      ghost var whole := AndRest(g, input, children, Here());
      while true
        invariant Valid() && children != [] && old(pos) < pos
        invariant AndRest(g, input, children, Here()) == whole
        decreases |input| - pos
      {
        o := NextAndOperand();
        if o.Fail? { return; }
        if o.node.None? { return Ok(Some(AndOf(children))); }
        children := children + [o.node.value];
      }
    }

    method NextOrOperand() returns (o: Outcome)
      requires Valid()
      modifies this
      ensures Valid() && Agrees(o, AsResult(OrOperand(g, input, old(Here()))))
      decreases |input| - pos, 2
    {
      hide ParseAnd, Consume;
      var save := pos;
      var more := ConsumeToken("OR", "||");
      if !more { return Ok(None); }
      o := AndExpr();
      if o.Ok? && o.node.None? { return Fail(MissingOperand("OR", save + 1)); }
    }

    method OrExpr() returns (o: Outcome)
      requires Valid()
      modifies this
      ensures Valid() && Agrees(o, ParseOr(g, input, old(Here())))
      decreases |input| - pos, 5
    {
      hide ParseAnd, OrOperand;
      o := AndExpr();
      if o.Fail? || o.node.None? { return; }
      var children := [o.node.value];
      ghost var whole := OrRest(g, input, children, Here());
      while true
        invariant Valid() && children != [] && old(pos) < pos
        invariant OrRest(g, input, children, Here()) == whole
        decreases |input| - pos
      {
        o := NextOrOperand();
        if o.Fail? { return; }
        if o.node.None? { return Ok(Some(OrOf(children))); }
        children := children + [o.node.value];
      }
    }
  }

  /** A text already read before the rest of a quoted value. */
  function Before(text: string, r: Option<(string, nat)>): Option<(string, nat)> {
    if r.None? then None else Some((text + r.value.0, r.value.1))
  }

  lemma BeforeNothing(r: Option<(string, nat)>)
    ensures Before("", r) == r
  {
    if r.Some? { assert "" + r.value.0 == r.value.0; }
  }

  lemma BeforePush(text: string, c: char, r: Option<(string, nat)>)
    ensures Before(text, Push(c, r)) == Before(text + [c], r)
  {
    if r.Some? {
      assert text + ([c] + r.value.0) == text + [c] + r.value.0;
    }
  }

  method ParseQuery(g: Language, input: string) returns (r: Parsed)
    ensures r == Parse(g, input)
    ensures r.Query? ==> Typed(g.dec, r.root) && Terms(r.root) <= MAX_QUERY_TERMS && FreeTerms(r.root) <= MAX_FREE_TEXT_TERMS
  {
    if |input| > MAX_QUERY_LENGTH { return Refused(QueryTooLong); }
    var p := new Parser(g, input);
    var o := p.OrExpr();
    if o.Fail? { return Refused(o.error); }
    p.Skip();
    if p.pos < |input| { return Refused(Unexpected(p.pos + 1)); }
    if o.node.None? { return Refused(QueryEmpty); }
    r := Query(o.node.value);
    ParseWithinBudgets(g, input);
  }
}
