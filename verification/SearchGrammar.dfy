// The search language as it may be written: spellings of a query, the tree each stands
// for, and what makes a spelling unambiguous.

module SearchGrammar {
  import opened Common
  import opened Like
  import opened SearchSyntax
  import opened SearchParser

  // --- Spellings ---------------------------------------------------------------------

  /** A text as it is written: bare, or between quotes with its escapes. */
  datatype Writing = Bare | InQuotes(quote: char, raw: string)

  /** One operand. A tag may be written with any word that resolves to its field. */
  datatype Factor =
    | Term(text: string, writing: Writing)
    | TagTerm(word: string, field: Field, op: Op, text: string, writing: Writing)
    | Negated(token: string, gap: string, inner: Factor)
    | Paren(body: OrExpr, tail: string)

  /** How one AND operand follows another: by standing next to it, or by a connective. */
  datatype Joint = Adjacent | Joined(gap: string, token: string)

  /** Each operand has some white space in front of it, possibly none. */
  datatype AndExpr =
    | One(gap: string, factor: Factor)
    | AndMore(gap: string, factor: Factor, joint: Joint, more: AndExpr)

  datatype OrExpr =
    | Single(only: AndExpr)
    | OrMore(first: AndExpr, gap: string, token: string, more: OrExpr)

  // --- Their text -----------------------------------------------------------------------

  function Written(text: string, w: Writing): string {
    match w
    case Bare => text
    case InQuotes(q, raw) => [q] + (raw + [q])
  }

  function JointText(j: Joint): string { match j case Adjacent => "" case Joined(gap, token) => gap + token }

  function FactorText(o: Factor): string {
    match o
    case Term(text, w) => Written(text, w)
    case TagTerm(word, _, op, text, w) => word + (OpText(op) + Written(text, w))
    case Negated(token, gap, inner) => token + (gap + FactorText(inner))
    case Paren(body, tail) => "(" + (OrText(body) + (tail + ")"))
  }

  function AndText(e: AndExpr): string {
    match e
    case One(gap, o) => gap + FactorText(o)
    case AndMore(gap, o, j, more) => gap + (FactorText(o) + (JointText(j) + AndText(more)))
  }

  function OrText(e: OrExpr): string {
    match e
    case Single(a) => AndText(a)
    case OrMore(a, gap, token, more) => AndText(a) + (gap + (token + OrText(more)))
  }

  // --- Their tree --------------------------------------------------------------------------

  /** AND binds tighter than OR, and a list of one is its operand. */
  function FactorTree(o: Factor): Node {
    match o
    case Term(text, _) => Leaf(FreeText(text))
    case TagTerm(_, f, op, text, _) => Leaf(Tagged(f, op, text))
    case Negated(_, _, inner) => Not(FactorTree(inner))
    case Paren(body, _) => OrOf(OrItems(body))
  }

  function AndItems(e: AndExpr): (ns: seq<Node>)
    ensures ns != []
  {
    match e
    case One(_, o) => [FactorTree(o)]
    case AndMore(_, o, _, more) => [FactorTree(o)] + AndItems(more)
  }

  function OrItems(e: OrExpr): (ns: seq<Node>)
    ensures ns != []
  {
    match e
    case Single(a) => [AndOf(AndItems(a))]
    case OrMore(a, _, _, more) => [AndOf(AndItems(a))] + OrItems(more)
  }

  // --- What may be written --------------------------------------------------------------------

  predicate Gap(t: string) { forall i | 0 <= i < |t| :: IsSpace(t[i]) }

  /** A run that neither white space, a parenthesis nor an operator ends, and no quote starts. */
  predicate PlainWord(w: string) { w != "" && !IsQuote(w[0]) && forall i | 0 <= i < |w| :: !EndsWord(w[i]) }

  predicate PlainValue(v: string) { v != "" && !IsQuote(v[0]) && forall i | 0 <= i < |v| :: !EndsValue(v[i]) }

  /** What stands between two quotes, and the text it means: a backslash takes the next character as it is. */
  predicate Means(raw: string, quote: char, text: string) {
    if raw == "" then text == ""
    else if raw[0] == '\\' then |raw| > 1 && text != "" && text[0] == raw[1] && Means(raw[2..], quote, text[1..])
    else raw[0] != quote && text != "" && text[0] == raw[0] && Means(raw[1..], quote, text[1..])
  }

  predicate QuotedAs(text: string, w: Writing) { w.InQuotes? && IsQuote(w.quote) && Means(w.raw, w.quote, text) }

  predicate IsWord(token: string, kw: string) { |token| == |kw| && Lower(token) == Lower(kw) }

  /** Every piece is one the language has: known tags, checked values, its own connectives. */
  predicate Lexical(g: Language, o: Factor) {
    match o
    case Term(text, w) => |text| >= MIN_FREE_TEXT_TERM_LENGTH && (if w.Bare? then PlainWord(text) else QuotedAs(text, w))
    case TagTerm(word, f, op, text, w) =>
      && PlainWord(word) && Lower(word) in g.index && g.index[Lower(word)] == f && text != "" && TypedField(g.dec, f, op, text)
      && (if w.Bare? then PlainValue(text) else QuotedAs(text, w))
    case Negated(token, gap, inner) => (token == "-" || IsWord(token, "NOT")) && Gap(gap) && Lexical(g, inner)
    case Paren(body, tail) => LexicalOr(g, body) && Gap(tail)
  }

  predicate LexicalAnd(g: Language, e: AndExpr) {
    match e
    case One(gap, o) => Gap(gap) && Lexical(g, o)
    case AndMore(gap, o, j, more) =>
      Gap(gap) && Lexical(g, o) && LexicalJoint(j) && LexicalAnd(g, more)
  }

  predicate LexicalJoint(j: Joint) { j.Joined? ==> Gap(j.gap) && (j.token == "&&" || IsWord(j.token, "AND")) }

  predicate LexicalOr(g: Language, e: OrExpr) {
    match e
    case Single(a) => LexicalAnd(g, a)
    case OrMore(a, gap, token, more) => LexicalAnd(g, a) && Gap(gap) && IsWord(token, "OR") && LexicalOr(g, more)
  }

  // --- What is unambiguous ------------------------------------------------------------------

  /** A bare word that reads neither as a connective nor as a negation. */
  predicate ClearWord(w: string) {
    && w != "" && w[0] != '-' && !IsWord(w, "AND") && !IsWord(w, "OR") && !IsWord(w, "NOT")
    && !("&&" <= w)
  }

  function OrHeadGap(e: OrExpr): string { match e case Single(a) => a.gap case OrMore(a, _, _, _) => a.gap }

  /** Words, and whatever a keyword or a bare word must not touch, are set apart by white space. */
  predicate Clear(o: Factor) {
    match o
    case Term(text, w) => w.Bare? ==> ClearWord(text)
    case TagTerm(word, _, op, text, w) =>
      && word != "" && word[0] != '-' && !("&&" <= word)
      && (w.Bare? && op in {Gt, Lt} ==> text != "" && text[0] != '=')
    case Negated(token, gap, inner) => (if token == "-" then gap == "" else gap != "") && Clear(inner)
    case Paren(body, _) => ClearOr(body)
  }

  predicate ClearAnd(e: AndExpr) {
    match e
    case One(_, o) => Clear(o)
    case AndMore(_, o, j, more) =>
      Clear(o) && ClearJoint(j, more.gap) && ClearAnd(more)
  }

  /** `gap` is the white space behind the joint. */
  predicate ClearJoint(j: Joint, gap: string) {
    match j
    case Adjacent => gap != ""
    case Joined(before, token) => before != "" && (token == "&&" || gap != "")
  }

  predicate ClearOr(e: OrExpr) {
    match e
    case Single(a) => ClearAnd(a)
    case OrMore(a, gap, _, more) => ClearAnd(a) && gap != "" && OrHeadGap(more) != "" && ClearOr(more)
  }
}
