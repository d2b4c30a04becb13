// Compiling a search tree to a parameterized SQL condition, with the condition
// kept as a tree of numbered placeholders and evaluated in three-valued logic.

module SearchSql {
  import opened Common
  import opened Like
  import opened SearchSyntax

  // --- Rows and three-valued logic ---------------------------------------------

  datatype Value = Null | Text(text: string) | Int(n: int) | Num(x: real) | Bool(b: bool) | Instant(t: int) | Clock(sec: int)

  /** A flight as its database sees it: how ILIKE folds case there, what LOWER gives, the columns,
      and the rows and elements that EXISTS conditions range over. An approach without a type has
      no name. */
  datatype Row = Row(
    fold: Folding,
    lower: string -> string,
    columns: map<string, Value>,
    signed: bool,
    crew: seq<string>,
    approaches: seq<Option<string>>)

  datatype Tri = True | False | Unknown

  function Lift(b: bool): Tri { if b then True else False }

  function Not3(a: Tri): Tri {
    match a case True => False case False => True case Unknown => Unknown
  }

  function And3(a: Tri, b: Tri): Tri {
    if a == False || b == False then False else if a == True && b == True then True else Unknown
  }

  function Or3(a: Tri, b: Tri): Tri {
    if a == True || b == True then True else if a == False && b == False then False else Unknown
  }

  function ColumnValue(row: Row, name: string): Value {
    if name in row.columns then row.columns[name] else Null
  }

  // --- Emitted SQL -------------------------------------------------------------

  datatype CmpOp = EqOp | NeOp | GtOp | GeOp | LtOp | LeOp

  /** An SQL expression: a flight column, or the element an EXISTS ranges over. */
  datatype Expr = OfFlight(column: ColumnRef) | CrewName | ApproachTypeOf

  /** A rendered condition; `ph` is a placeholder number ($ph). */
  datatype Sql =
    | SqlAnd(parts: seq<Sql>)
    | SqlOr(parts: seq<Sql>)
    | SqlNot(arg: Sql)
    | ILike(e: Expr, ph: nat)
    | LowerCmp(e: Expr, differs: bool, ph: nat)
    | Cmp(e: Expr, op: CmpOp, ph: nat)
    | SignatureIsNull(negated: bool)
    | ExistsCrew(where: Sql)
    | ExistsApproach(where: Sql)

  /** The row in scope: the flight and, inside an EXISTS, its crew member or approach element. */
  datatype Scope = Scope(row: Row, crewName: string, approach: Option<string>)

  function Scalar(e: Expr, sc: Scope): Value {
    match e
    case OfFlight(column) =>
      var v := ColumnValue(sc.row, column.name);
      if column.Coalesced? && v.Null? then Text("") else v
    case CrewName => Text(sc.crewName)
    case ApproachTypeOf => if sc.approach.Some? then Text(sc.approach.value) else Null
  }

  type Params = map<nat, Value>

  function Param(ps: Params, n: nat): Value { if n in ps then ps[n] else Null }

  predicate RealHolds(op: CmpOp, a: real, b: real) {
    match op
    case EqOp => a == b
    case NeOp => a != b
    case GtOp => a > b
    case GeOp => a >= b
    case LtOp => a < b
    case LeOp => a <= b
  }

  /** The position of an ordered value on the real line. */
  function Position(v: Value): Option<real> {
    match v
    case Int(n) => Some(n as real)
    case Num(x) => Some(x)
    case Instant(t) => Some(t as real)
    case Clock(sec) => Some(sec as real)
    case Bool(b) => Some(if b then 1.0 else 0.0)
    case _ => None
  }

  function Compare(op: CmpOp, a: Value, b: Value): Tri {
    if Position(a).None? || Position(b).None? then Unknown
    else Lift(RealHolds(op, Position(a).value, Position(b).value))
  }

  function Eval(s: Sql, sc: Scope, ps: Params): Tri
    decreases s, 1
  {
    match s
    case SqlAnd(parts) => EvalAnd(parts, sc, ps)
    case SqlOr(parts) => EvalOr(parts, sc, ps)
    case SqlNot(a) => Not3(Eval(a, sc, ps))
    case ILike(e, ph) =>
      var v, p := Scalar(e, sc), Param(ps, ph);
      if v.Text? && p.Text? then Lift(IMatches(sc.row.fold, v.text, p.text)) else Unknown
    case LowerCmp(e, differs, ph) =>
      var v, p := Scalar(e, sc), Param(ps, ph);
      if v.Text? && p.Text? then Lift((sc.row.lower(v.text) == sc.row.lower(p.text)) != differs) else Unknown
    case Cmp(e, op, ph) => Compare(op, Scalar(e, sc), Param(ps, ph))
    case SignatureIsNull(negated) => Lift(sc.row.signed == negated)
    case ExistsCrew(w) =>
      Lift(exists i | 0 <= i < |sc.row.crew| :: Eval(w, sc.(crewName := sc.row.crew[i]), ps) == True)
    case ExistsApproach(w) =>
      Lift(exists i | 0 <= i < |sc.row.approaches| :: Eval(w, sc.(approach := sc.row.approaches[i]), ps) == True)
  }

  function EvalAnd(parts: seq<Sql>, sc: Scope, ps: Params): Tri
    decreases parts, 0
  {
    if parts == [] then True else And3(Eval(parts[0], sc, ps), EvalAnd(parts[1..], sc, ps))
  }

  function EvalOr(parts: seq<Sql>, sc: Scope, ps: Params): Tri
    decreases parts, 0
  {
    if parts == [] then False else Or3(Eval(parts[0], sc, ps), EvalOr(parts[1..], sc, ps))
  }

  function FlightScope(row: Row): Scope { Scope(row, "", None) }

  // --- Compilation --------------------------------------------------------------

  datatype Code = Code(sql: Sql, args: seq<Value>)
  datatype Codes = Codes(sqls: seq<Sql>, args: seq<Value>)

  const FREE_TEXT_COLUMNS: seq<string> :=
    ["aircraft_reg", "aircraft_type", "departure_icao", "arrival_icao", "route", "remarks", "instructor_name", "pic_name"]

  function FreeTextParts(columns: seq<string>, n: nat): (parts: seq<Sql>)
    ensures |parts| == |columns|
    ensures forall i | 0 <= i < |columns| :: parts[i] == ILike(OfFlight(Coalesced(columns[i])), n)
  {
    seq(|columns|, i requires 0 <= i < |columns| => ILike(OfFlight(Coalesced(columns[i])), n))
  }

  /** newFreeTextLeaf: one placeholder, used once per column and once for the crew. */
  function FreeTextCode(term: string, n: nat): Code {
    Code(SqlOr(FreeTextParts(FREE_TEXT_COLUMNS, n) + [ExistsCrew(ILike(CrewName, n))]), [Text(ContainsPattern(term))])
  }

  /** newTextLeaf over an expression. */
  function TextCode(e: Expr, op: Op, value: string, n: nat): Code
    requires op in {Colon, Eq, Ne}
  {
    match op
    case Colon => Code(ILike(e, n), [Text(ContainsPattern(value))])
    case Eq => Code(LowerCmp(e, false, n), [Text(value)])
    case Ne => Code(LowerCmp(e, true, n), [Text(value)])
  }

  function CompareOp(op: Op): CmpOp {
    match op
    case Colon => EqOp
    case Eq => EqOp
    case Ne => NeOp
    case Gt => GtOp
    case Ge => GeOp
    case Lt => LtOp
    case Le => LeOp
  }

  function CompareCode(e: Expr, op: Op, v: Value, n: nat): Code {
    Code(Cmp(e, CompareOp(op), n), [v])
  }

  /** newDateLeaf: comparisons against the range [start, next). */
  function DateCode(e: Expr, op: Op, start: int, next: int, n: nat): Code {
    match op
    case Ne => Code(SqlOr([Cmp(e, LtOp, n), Cmp(e, GeOp, n + 1)]), [Instant(start), Instant(next)])
    case Gt => Code(Cmp(e, GeOp, n), [Instant(next)])
    case Ge => Code(Cmp(e, GeOp, n), [Instant(start)])
    case Lt => Code(Cmp(e, LtOp, n), [Instant(start)])
    case Le => Code(Cmp(e, LtOp, n), [Instant(next)])
    case _ => Code(SqlAnd([Cmp(e, GeOp, n), Cmp(e, LtOp, n + 1)]), [Instant(start), Instant(next)])
  }

  /** The condition a validated leaf renders with its first free placeholder `n`. */
  function LeafCode(dec: Decoders, cond: Cond, n: nat): Code
    requires TypedCond(dec, cond)
  {
    match cond
    case FreeText(term) => FreeTextCode(term, n)
    case Tagged(f, op, value) =>
      if f.name == "crew" then
        var inner := TextCode(CrewName, op, value, n);
        Code(ExistsCrew(inner.sql), inner.args)
      else if f.name == "approachType" then
        var inner := TextCode(ApproachTypeOf, op, value, n);
        Code(ExistsApproach(inner.sql), inner.args)
      else if f.name == "signed" then
        Code(SignatureIsNull(ParseBool(value).value != (op == Ne)), [])
      else
        match f.ftype
        case TextField => TextCode(OfFlight(f.column), op, value, n)
        case DurationField => CompareCode(OfFlight(f.column), op, Int(ParseDurationMinutes(dec, value).value), n)
        case IntField => CompareCode(OfFlight(f.column), op, Int(dec.atoi(value).value), n)
        case NumberField => CompareCode(OfFlight(f.column), op, Num(dec.parseFloat(value).value), n)
        case BoolField => Code(Cmp(OfFlight(f.column), EqOp, n), [Bool(ParseBool(value).value != (op == Ne))])
        case DateField => DateCode(OfFlight(f.column), op, dec.dateRange(value).value.0, dec.dateRange(value).value.1, n)
        case ClockField => CompareCode(OfFlight(f.column), op, Clock(dec.clock(value).value), n)
  }

  /** The rendered condition and its bound values, placeholders counting from `n`. */
  function Compile(dec: Decoders, q: Node, n: nat): Code
    requires Typed(dec, q)
    decreases q, 1
  {
    match q
    case And(cs) => var r := CompileAll(dec, cs, n); Code(SqlAnd(r.sqls), r.args)
    case Or(cs) => var r := CompileAll(dec, cs, n); Code(SqlOr(r.sqls), r.args)
    case Not(c) => var r := Compile(dec, c, n); Code(SqlNot(r.sql), r.args)
    case Leaf(cond) => LeafCode(dec, cond, n)
  }

  function CompileAll(dec: Decoders, qs: seq<Node>, n: nat): (r: Codes)
    requires TypedAll(dec, qs)
    ensures |r.sqls| == |qs|
    decreases qs, 0
  {
    if qs == [] then Codes([], [])
    else
      var first := Compile(dec, qs[0], n);
      var rest := CompileAll(dec, qs[1..], n + |first.args|);
      Codes([first.sql] + rest.sqls, first.args + rest.args)
  }

  lemma CompileAllCons(dec: Decoders, qs: seq<Node>, n: nat)
    requires TypedAll(dec, qs)
    ensures qs == [] ==> CompileAll(dec, qs, n) == Codes([], [])
    ensures qs != [] ==>
              var first := Compile(dec, qs[0], n);
              var rest := CompileAll(dec, qs[1..], n + |first.args|);
              CompileAll(dec, qs, n) == Codes([first.sql] + rest.sqls, first.args + rest.args)
  {
  }

  // --- The tree's own meaning -----------------------------------------------------

  function TextOf(row: Row, name: string): Option<string> {
    var v := ColumnValue(row, name);
    if v.Null? then Some("") else if v.Text? then Some(v.text) else None
  }

  /** What a text condition says of one text: wildcard containment, equality or difference, ignoring case. */
  ghost predicate TextHolds(row: Row, t: string, op: Op, value: string) {
    match op
    case Colon => GlobInside(Fold(row.fold, t), Fold(row.fold, value))
    case Eq => row.lower(t) == row.lower(value)
    case _ => row.lower(t) != row.lower(value)
  }

  /** A text column compared; an empty one counts as the empty text when it is coalesced. */
  ghost function TextColumnMeaning(c: ColumnRef, op: Op, value: string, row: Row): Tri {
    var v := ColumnValue(row, c.name);
    var t := if c.Coalesced? then TextOf(row, c.name) else if v.Text? then Some(v.text) else None;
    if t.None? then Unknown else Lift(TextHolds(row, t.value, op, value))
  }

  predicate OrderHolds(op: Op, a: real, b: real) {
    match op
    case Ne => a != b
    case Gt => a > b
    case Ge => a >= b
    case Lt => a < b
    case Le => a <= b
    case _ => a == b
  }

  /** A column compared with a number; an empty column gives no answer. */
  ghost function OrderMeaning(c: ColumnRef, op: Op, x: real, row: Row): Tri {
    var v := Position(ColumnValue(row, c.name));
    if v.None? then Unknown else Lift(OrderHolds(op, v.value, x))
  }

  /** A partial date is the range of days it contains: before it, inside it, or after it. */
  predicate DateHolds(op: Op, t: real, start: real, next: real) {
    match op
    case Ne => !(start <= t < next)
    case Gt => next <= t
    case Ge => start <= t
    case Lt => t < start
    case Le => t < next
    case _ => start <= t < next
  }

  ghost function DateMeaning(c: ColumnRef, op: Op, start: int, next: int, row: Row): Tri {
    var v := Position(ColumnValue(row, c.name));
    if v.None? then Unknown else Lift(DateHolds(op, v.value, start as real, next as real))
  }

  /** The columns a bare term is looked for in. */
  predicate IsSearched(column: string) {
    column in {"aircraft_reg", "aircraft_type", "departure_icao", "arrival_icao", "route", "remarks", "instructor_name", "pic_name"}
  }

  ghost predicate ContainsTerm(row: Row, column: string, term: string) {
    var t := TextOf(row, column);
    t.Some? && GlobInside(Fold(row.fold, t.value), Fold(row.fold, term))
  }

  /** A bare term holds when a searched column or a crew name contains it; a column that is no
      text leaves the answer open. */
  ghost function FreeTextTri(term: string, row: Row): Tri {
    if (exists c | IsSearched(c) :: ContainsTerm(row, c, term))
       || exists i | 0 <= i < |row.crew| :: GlobInside(Fold(row.fold, row.crew[i]), Fold(row.fold, term)) then True
    else if exists c | IsSearched(c) :: TextOf(row, c).None? then Unknown
    else False
  }

  /** The flights asked for: those with it, unless the value says no or the operator says not. */
  predicate AsksFor(op: Op, value: string) { SaysTrue(value) != (op == Ne) }

  ghost function DurationMeaning(dec: Decoders, c: ColumnRef, op: Op, value: string, row: Row): Tri
    requires exists m :: SaysMinutes(dec, value, m)
  {
    var m :| SaysMinutes(dec, value, m);
    OrderMeaning(c, op, m as real, row)
  }

  ghost function LeafMeaning(dec: Decoders, cond: Cond, row: Row): Tri
    requires TypedCond(dec, cond)
  {
    match cond
    case FreeText(term) => FreeTextTri(term, row)
    case Tagged(f, op, value) =>
      AcceptedIff(dec, f, op, value);
      if f.name == "crew" then
        Lift(exists i | 0 <= i < |row.crew| :: TextHolds(row, row.crew[i], op, value))
      else if f.name == "approachType" then
        Lift(exists i | 0 <= i < |row.approaches| ::
               row.approaches[i].Some? && TextHolds(row, row.approaches[i].value, op, value))
      else if f.name == "signed" then
        Lift(row.signed == AsksFor(op, value))
      else
        match f.ftype
        case TextField => TextColumnMeaning(f.column, op, value, row)
        case DurationField => DurationMeaning(dec, f.column, op, value, row)
        case IntField => OrderMeaning(f.column, op, dec.atoi(value).value as real, row)
        case NumberField => OrderMeaning(f.column, op, dec.parseFloat(value).value, row)
        case BoolField => OrderMeaning(f.column, Eq, if AsksFor(op, value) then 1.0 else 0.0, row)
        case DateField => DateMeaning(f.column, op, dec.dateRange(value).value.0, dec.dateRange(value).value.1, row)
        case ClockField => OrderMeaning(f.column, op, dec.clock(value).value as real, row)
  }

  /** A boolean tag: `signed:true` is the flight's own answer, and so on for every word and operator. */
  lemma BooleanTags(dec: Decoders, f: Field, op: Op, value: string, row: Row)
    requires TypedField(dec, f, op, value)
    ensures f.name == "signed" ==> LeafMeaning(dec, Tagged(f, op, value), row) == Lift(row.signed == AsksFor(op, value))
    ensures f.name == "signed" && op in {Colon, Eq} && value == "true" ==> LeafMeaning(dec, Tagged(f, op, value), row) == Lift(row.signed)
    ensures f.name == "signed" && op in {Colon, Eq} && value == "false" ==> LeafMeaning(dec, Tagged(f, op, value), row) == Lift(!row.signed)
    ensures f.name == "signed" && op == Ne && value == "true" ==> LeafMeaning(dec, Tagged(f, op, value), row) == Lift(!row.signed)
    ensures ByType(f) && f.ftype == BoolField && ColumnValue(row, f.column.name).Bool? ==>
              LeafMeaning(dec, Tagged(f, op, value), row) == Lift(ColumnValue(row, f.column.name).b == AsksFor(op, value))
  {
    assert AnyCase("true", "true") && !AnyCase("false", "true") && !AnyCase("false", "yes");
  }

  lemma SearchedColumns(c: string)
    ensures c in FREE_TEXT_COLUMNS <==> IsSearched(c)
  {
  }

  ghost function Meaning(dec: Decoders, q: Node, row: Row): Tri
    requires Typed(dec, q)
    decreases q, 1
  {
    match q
    case And(cs) => MeaningAnd(dec, cs, row)
    case Or(cs) => MeaningOr(dec, cs, row)
    case Not(c) => Not3(Meaning(dec, c, row))
    case Leaf(cond) => LeafMeaning(dec, cond, row)
  }

  ghost function MeaningAnd(dec: Decoders, qs: seq<Node>, row: Row): Tri
    requires TypedAll(dec, qs)
    decreases qs, 0
  {
    if qs == [] then True else And3(Meaning(dec, qs[0], row), MeaningAnd(dec, qs[1..], row))
  }

  ghost function MeaningOr(dec: Decoders, qs: seq<Node>, row: Row): Tri
    requires TypedAll(dec, qs)
    decreases qs, 0
  {
    if qs == [] then False else Or3(Meaning(dec, qs[0], row), MeaningOr(dec, qs[1..], row))
  }

  // --- Compilation preserves meaning ------------------------------------------------

  /** The parameters give the placeholders from `n` on the values `args`. */
  ghost predicate Binds(ps: Params, n: nat, args: seq<Value>) {
    forall i | 0 <= i < |args| :: Param(ps, n + i) == args[i]
  }

  lemma BindsSplit(ps: Params, n: nat, a: seq<Value>, b: seq<Value>)
    requires Binds(ps, n, a + b)
    ensures Binds(ps, n, a) && Binds(ps, n + |a|, b)
  {
    forall i | 0 <= i < |a| ensures Param(ps, n + i) == a[i] {
      assert (a + b)[i] == a[i];
    }
    forall i | 0 <= i < |b| ensures Param(ps, n + |a| + i) == b[i] {
      assert (a + b)[|a| + i] == b[i];
      assert n + (|a| + i) == n + |a| + i;
    }
  }

  /** A text condition over an expression that yields a text evaluates to what it says of that text. */
  lemma TextCodeMeaning(e: Expr, op: Op, value: string, n: nat, ps: Params, sc: Scope)
    requires op in {Colon, Eq, Ne}
    requires Binds(ps, n, TextCode(e, op, value, n).args)
    ensures Eval(TextCode(e, op, value, n).sql, sc, ps) ==
            (if Scalar(e, sc).Text? then Lift(TextHolds(sc.row, Scalar(e, sc).text, op, value)) else Unknown)
  {
    var code := TextCode(e, op, value, n);
    assert Param(ps, n + 0) == code.args[0];
    if Scalar(e, sc).Text? && op == Colon {
      ILikeContains(sc.row.fold, Scalar(e, sc).text, value);
    }
  }

  lemma CompareCodeMeaning(c: ColumnRef, op: Op, v: Value, n: nat, ps: Params, row: Row)
    requires Position(v).Some?
    requires Binds(ps, n, CompareCode(OfFlight(c), op, v, n).args)
    ensures Eval(CompareCode(OfFlight(c), op, v, n).sql, FlightScope(row), ps) == OrderMeaning(c, op, Position(v).value, row)
  {
    assert Param(ps, n + 0) == CompareCode(OfFlight(c), op, v, n).args[0];
  }

  lemma DateCodeMeaning(c: ColumnRef, op: Op, start: int, next: int, n: nat, ps: Params, row: Row)
    requires Binds(ps, n, DateCode(OfFlight(c), op, start, next, n).args)
    ensures Eval(DateCode(OfFlight(c), op, start, next, n).sql, FlightScope(row), ps) == DateMeaning(c, op, start, next, row)
  {
    var code := DateCode(OfFlight(c), op, start, next, n);
    assert Param(ps, n + 0) == code.args[0];
    if |code.args| == 2 {
      assert Param(ps, n + 1) == code.args[1];
      var sc, x, y := FlightScope(row), code.sql.parts[0], code.sql.parts[1];
      assert code.sql.parts[1..] == [y] && [y][1..] == [];
      assert EvalAnd([y], sc, ps) == And3(Eval(y, sc, ps), EvalAnd([], sc, ps));
      assert EvalOr([y], sc, ps) == Or3(Eval(y, sc, ps), EvalOr([], sc, ps));
      assert Eval(code.sql, sc, ps) == if op == Ne then Or3(Eval(x, sc, ps), Eval(y, sc, ps)) else And3(Eval(x, sc, ps), Eval(y, sc, ps));
    }
  }

  /** A disjunction is True when one part is, else Unknown when one part is, else False. */
  lemma {:induction false} EvalOrParts(parts: seq<Sql>, sc: Scope, ps: Params)
    ensures EvalOr(parts, sc, ps) == True <==> exists i | 0 <= i < |parts| :: Eval(parts[i], sc, ps) == True
    ensures EvalOr(parts, sc, ps) == False <==> forall i | 0 <= i < |parts| :: Eval(parts[i], sc, ps) == False
  {
    if parts != [] {
      var rest := parts[1..];
      EvalOrParts(rest, sc, ps);
      assert forall i | 0 <= i < |rest| :: rest[i] == parts[i + 1];
      assert forall i | 0 < i < |parts| :: parts[i] == rest[i - 1];
    }
  }

  lemma FreeTextColumn(term: string, n: nat, ps: Params, row: Row, column: string)
    requires Param(ps, n) == Text(ContainsPattern(term))
    ensures Eval(ILike(OfFlight(Coalesced(column)), n), FlightScope(row), ps)
         == (var t := TextOf(row, column);
             if t.None? then Unknown else Lift(GlobInside(Fold(row.fold, t.value), Fold(row.fold, term))))
  {
    hide ContainsPattern, IMatches, GlobInside;
    var t := TextOf(row, column);
    if t.Some? { ILikeContains(row.fold, t.value, term); }
  }

  lemma FreeTextCrew(term: string, n: nat, ps: Params, row: Row)
    requires Param(ps, n) == Text(ContainsPattern(term))
    ensures Eval(ExistsCrew(ILike(CrewName, n)), FlightScope(row), ps)
         == Lift(exists i | 0 <= i < |row.crew| :: GlobInside(Fold(row.fold, row.crew[i]), Fold(row.fold, term)))
  {
    hide ContainsPattern, IMatches, GlobInside;
    var sc := FlightScope(row);
    forall i | 0 <= i < |row.crew|
      ensures Eval(ILike(CrewName, n), sc.(crewName := row.crew[i]), ps)
           == Lift(GlobInside(Fold(row.fold, row.crew[i]), Fold(row.fold, term)))
    {
      ILikeContains(row.fold, row.crew[i], term);
    }
  }

  lemma FreeTextOver(columns: seq<string>, term: string, n: nat, ps: Params, row: Row)
    requires Param(ps, n) == Text(ContainsPattern(term))
    requires forall c :: c in columns <==> IsSearched(c)
    ensures EvalOr(FreeTextParts(columns, n) + [ExistsCrew(ILike(CrewName, n))], FlightScope(row), ps) == FreeTextTri(term, row)
  {
    hide Eval, EvalOr, GlobInside, Fold, ContainsPattern, TextOf, Param, IsSearched;
    var sc := FlightScope(row);
    var parts := FreeTextParts(columns, n) + [ExistsCrew(ILike(CrewName, n))];
    forall i | 0 <= i < |columns|
      ensures IsSearched(columns[i])
      ensures Eval(parts[i], sc, ps) == if TextOf(row, columns[i]).None? then Unknown else Lift(ContainsTerm(row, columns[i], term))
    {
      FreeTextColumn(term, n, ps, row, columns[i]);
    }
    FreeTextCrew(term, n, ps, row);
    assert parts[|columns|] == ExistsCrew(ILike(CrewName, n));
    EvalOrParts(parts, sc, ps);
    forall c | IsSearched(c) ensures exists i | 0 <= i < |columns| :: columns[i] == c && Eval(parts[i], sc, ps) == Eval(parts[i], sc, ps) {
      assert c in columns;
    }
  }

  lemma FreeTextMeaning(term: string, n: nat, ps: Params, row: Row, dec: Decoders)
    requires Binds(ps, n, FreeTextCode(term, n).args)
    ensures Eval(FreeTextCode(term, n).sql, FlightScope(row), ps) == LeafMeaning(dec, FreeText(term), row)
  {
    hide FreeTextTri, EvalOr, FreeTextParts, IsSearched;
    assert FreeTextCode(term, n).args[0] == Param(ps, n + 0);
    forall c: string ensures c in FREE_TEXT_COLUMNS <==> IsSearched(c) { SearchedColumns(c); }
    FreeTextOver(FREE_TEXT_COLUMNS, term, n, ps, row);
  }

  lemma DurationCodeMeaning(dec: Decoders, c: ColumnRef, op: Op, value: string, n: nat, ps: Params, row: Row)
    requires ParseDurationMinutes(dec, value).Some? && exists m :: SaysMinutes(dec, value, m)
    requires Binds(ps, n, CompareCode(OfFlight(c), op, Int(ParseDurationMinutes(dec, value).value), n).args)
    ensures Eval(CompareCode(OfFlight(c), op, Int(ParseDurationMinutes(dec, value).value), n).sql, FlightScope(row), ps)
         == DurationMeaning(dec, c, op, value, row)
  {
    hide ParseDurationMinutes, SaysMinutes, Eval, OrderMeaning;
    CompareCodeMeaning(c, op, Int(ParseDurationMinutes(dec, value).value), n, ps, row);
    forall m | SaysMinutes(dec, value, m) ensures ParseDurationMinutes(dec, value) == Some(m) { DurationReads(dec, value, m); }
  }

  lemma CrewMeaning(op: Op, value: string, n: nat, ps: Params, row: Row)
    requires op in {Colon, Eq, Ne}
    requires Binds(ps, n, TextCode(CrewName, op, value, n).args)
    ensures Eval(ExistsCrew(TextCode(CrewName, op, value, n).sql), FlightScope(row), ps) ==
            Lift(exists i | 0 <= i < |row.crew| :: TextHolds(row, row.crew[i], op, value))
  {
    var sc, w := FlightScope(row), TextCode(CrewName, op, value, n).sql;
    forall i | 0 <= i < |row.crew|
      ensures Eval(w, sc.(crewName := row.crew[i]), ps) == Lift(TextHolds(row, row.crew[i], op, value))
    {
      TextCodeMeaning(CrewName, op, value, n, ps, sc.(crewName := row.crew[i]));
    }
  }

  lemma ApproachMeaning(op: Op, value: string, n: nat, ps: Params, row: Row)
    requires op in {Colon, Eq, Ne}
    requires Binds(ps, n, TextCode(ApproachTypeOf, op, value, n).args)
    ensures Eval(ExistsApproach(TextCode(ApproachTypeOf, op, value, n).sql), FlightScope(row), ps) ==
            Lift(exists i | 0 <= i < |row.approaches| ::
                   row.approaches[i].Some? && TextHolds(row, row.approaches[i].value, op, value))
  {
    var sc, w := FlightScope(row), TextCode(ApproachTypeOf, op, value, n).sql;
    forall i | 0 <= i < |row.approaches|
      ensures Eval(w, sc.(approach := row.approaches[i]), ps) == True
              <==> row.approaches[i].Some? && TextHolds(row, row.approaches[i].value, op, value)
    {
      TextCodeMeaning(ApproachTypeOf, op, value, n, ps, sc.(approach := row.approaches[i]));
    }
  }

  /** A condition on a column, by the type of its tag. */
  lemma ColumnPreserved(dec: Decoders, f: Field, op: Op, value: string, n: nat, ps: Params, row: Row)
    requires TypedField(dec, f, op, value) && ByType(f)
    requires Binds(ps, n, LeafCode(dec, Tagged(f, op, value), n).args)
    ensures Eval(LeafCode(dec, Tagged(f, op, value), n).sql, FlightScope(row), ps) == LeafMeaning(dec, Tagged(f, op, value), row)
  {
    hide ParseDurationMinutes, SaysMinutes, ParseBool, SaysTrue, SaysFalse, TextHolds, DurationMeaning, DateMeaning, DateCode;
    AcceptedIff(dec, f, op, value);
    match f.ftype
    case TextField => TextCodeMeaning(OfFlight(f.column), op, value, n, ps, FlightScope(row));
    case DurationField => DurationCodeMeaning(dec, f.column, op, value, n, ps, row);
    case IntField => CompareCodeMeaning(f.column, op, Int(dec.atoi(value).value), n, ps, row);
    case NumberField => CompareCodeMeaning(f.column, op, Num(dec.parseFloat(value).value), n, ps, row);
    case BoolField =>
      BooleanReads(value);
      CompareCodeMeaning(f.column, Eq, Bool(ParseBool(value).value != (op == Ne)), n, ps, row);
    case DateField => DateCodeMeaning(f.column, op, dec.dateRange(value).value.0, dec.dateRange(value).value.1, n, ps, row);
    case ClockField => CompareCodeMeaning(f.column, op, Clock(dec.clock(value).value), n, ps, row);
  }

  lemma LeafPreserved(dec: Decoders, cond: Cond, n: nat, ps: Params, row: Row)
    requires TypedCond(dec, cond)
    requires Binds(ps, n, LeafCode(dec, cond, n).args)
    ensures Eval(LeafCode(dec, cond, n).sql, FlightScope(row), ps) == LeafMeaning(dec, cond, row)
  {
    hide ParseDurationMinutes, SaysMinutes, ParseBool, SaysTrue, SaysFalse, TextHolds, DurationMeaning, DateMeaning, DateCode, TextCode;
    match cond
    case FreeText(term) => FreeTextMeaning(term, n, ps, row, dec);
    case Tagged(f, op, value) =>
      if ByType(f) {
        ColumnPreserved(dec, f, op, value, n, ps, row);
      } else if f.name == "crew" {
        CrewMeaning(op, value, n, ps, row);
      } else if f.name == "approachType" {
        ApproachMeaning(op, value, n, ps, row);
      } else {
        BooleanReads(value);
      }
  }

  /** The compiled condition, evaluated with its bound values, is the tree's own meaning. */
  lemma {:induction false} CompilePreservesMeaning(dec: Decoders, q: Node, n: nat, ps: Params, row: Row)
    requires Typed(dec, q)
    requires Binds(ps, n, Compile(dec, q, n).args)
    ensures Eval(Compile(dec, q, n).sql, FlightScope(row), ps) == Meaning(dec, q, row)
    decreases q, 1
  {
    match q
    case And(cs) => CompileAllPreservesMeaning(dec, cs, n, ps, row);
    case Or(cs) => CompileAllPreservesMeaning(dec, cs, n, ps, row);
    case Not(c) => CompilePreservesMeaning(dec, c, n, ps, row);
    case Leaf(cond) => LeafPreserved(dec, cond, n, ps, row);
  }

  lemma {:induction false} CompileAllPreservesMeaning(dec: Decoders, qs: seq<Node>, n: nat, ps: Params, row: Row)
    requires TypedAll(dec, qs)
    requires Binds(ps, n, CompileAll(dec, qs, n).args)
    ensures EvalAnd(CompileAll(dec, qs, n).sqls, FlightScope(row), ps) == MeaningAnd(dec, qs, row)
    ensures EvalOr(CompileAll(dec, qs, n).sqls, FlightScope(row), ps) == MeaningOr(dec, qs, row)
    decreases qs, 0
  {
    hide Compile, CompileAll, Eval, Meaning, Binds;
    CompileAllCons(dec, qs, n);
    if qs != [] {
      var first := Compile(dec, qs[0], n);
      var rest := CompileAll(dec, qs[1..], n + |first.args|);
      BindsSplit(ps, n, first.args, rest.args);
      CompilePreservesMeaning(dec, qs[0], n, ps, row);
      CompileAllPreservesMeaning(dec, qs[1..], n + |first.args|, ps, row);
      assert CompileAll(dec, qs, n).sqls[1..] == rest.sqls;
    }
  }

  // --- Placeholder numbering ----------------------------------------------------------

  /** The placeholders of a condition in text order. */
  function Uses(s: Sql): seq<nat>
    decreases s, 1
  {
    match s
    case SqlAnd(parts) => UsesAll(parts)
    case SqlOr(parts) => UsesAll(parts)
    case SqlNot(a) => Uses(a)
    case ILike(_, ph) => [ph]
    case LowerCmp(_, _, ph) => [ph]
    case Cmp(_, _, ph) => [ph]
    case SignatureIsNull(_) => []
    case ExistsCrew(w) => Uses(w)
    case ExistsApproach(w) => Uses(w)
  }

  function UsesAll(parts: seq<Sql>): seq<nat>
    decreases parts, 0
  {
    if parts == [] then [] else Uses(parts[0]) + UsesAll(parts[1..])
  }

  /** First occurrences, in order. */
  function FirstUses(s: seq<nat>): seq<nat> {
    if s == [] then []
    else
      var front := FirstUses(s[..|s| - 1]);
      if s[|s| - 1] in front then front else front + [s[|s| - 1]]
  }

  lemma {:induction false} FirstUsesMembers(s: seq<nat>, x: nat)
    ensures x in FirstUses(s) <==> x in s
  {
    if s != [] {
      FirstUsesMembers(s[..|s| - 1], x);
      assert s == s[..|s| - 1] + [s[|s| - 1]];
    }
  }

  function Range(n: nat, k: nat): (r: seq<nat>)
    ensures |r| == k && forall i | 0 <= i < k :: r[i] == n + i
  {
    seq(k, i requires 0 <= i < k => n + i)
  }

  lemma {:induction false} FirstUsesDisjoint(a: seq<nat>, b: seq<nat>)
    requires forall x | x in a :: x !in b
    ensures FirstUses(a + b) == FirstUses(a) + FirstUses(b)
    decreases |b|
  {
    if b == [] {
      assert a + b == a;
    } else {
      var front, last := b[..|b| - 1], b[|b| - 1];
      assert (a + b)[..|a + b| - 1] == a + front;
      FirstUsesDisjoint(a, front);
      FirstUsesMembers(a, last);
      assert last in b;
    }
  }

  lemma RangeConcat(n: nat, k: nat, m: nat)
    ensures Range(n, k) + Range(n + k, m) == Range(n, k + m)
  {
  }

  lemma FirstUsesConcat(a: seq<nat>, b: seq<nat>, n: nat, k: nat, m: nat)
    requires FirstUses(a) == Range(n, k) && FirstUses(b) == Range(n + k, m)
    ensures FirstUses(a + b) == Range(n, k + m)
  {
    forall x | x in a ensures x !in b {
      FirstUsesMembers(a, x);
      FirstUsesMembers(b, x);
      RangeDisjoint(n, k, m, x);
    }
    FirstUsesDisjoint(a, b);
    RangeConcat(n, k, m);
  }

  lemma RangeDisjoint(n: nat, k: nat, m: nat, x: nat)
    ensures x in Range(n, k) ==> x !in Range(n + k, m)
  {
  }

  lemma UsesAllCons(s: Sql, rest: seq<Sql>)
    ensures UsesAll([s] + rest) == Uses(s) + UsesAll(rest)
  {
    assert ([s] + rest)[1..] == rest;
  }

  lemma {:induction false} RepeatedUse(s: seq<nat>, n: nat)
    requires s != [] && forall i | 0 <= i < |s| :: s[i] == n
    ensures FirstUses(s) == Range(n, 1)
  {
    if |s| == 1 {
      assert s[..0] == [] && FirstUses([]) == [];
    } else {
      RepeatedUse(s[..|s| - 1], n);
    }
  }

  lemma {:induction false} UsesAllOnly(parts: seq<Sql>, n: nat)
    requires forall i | 0 <= i < |parts| :: Uses(parts[i]) == [n]
    ensures |UsesAll(parts)| == |parts| && forall i | 0 <= i < |parts| :: UsesAll(parts)[i] == n
  {
    if parts != [] { UsesAllOnly(parts[1..], n); }
  }

  lemma PairUses(a: nat, b: nat)
    requires b == a + 1
    ensures FirstUses([a, b]) == Range(a, 2)
  {
    assert [a, b][..1] == [a];
    RepeatedUse([a], a);
  }

  lemma FreeTextNumbering(term: string, n: nat)
    ensures FirstUses(Uses(FreeTextCode(term, n).sql)) == Range(n, 1)
  {
    var parts := FreeTextCode(term, n).sql.parts;
    forall i | 0 <= i < |parts| ensures Uses(parts[i]) == [n] {
      if i == |FREE_TEXT_COLUMNS| {
        assert parts[i] == ExistsCrew(ILike(CrewName, n));
        assert Uses(ILike(CrewName, n)) == [n];
      }
    }
    UsesAllOnly(parts, n);
    RepeatedUse(UsesAll(parts), n);
  }

  lemma DateNumbering(e: Expr, op: Op, start: int, next: int, n: nat)
    ensures FirstUses(Uses(DateCode(e, op, start, next, n).sql)) == Range(n, |DateCode(e, op, start, next, n).args|)
  {
    var code := DateCode(e, op, start, next, n);
    if |code.args| == 2 {
      var parts := code.sql.parts;
      assert parts[1..] == [parts[1]];
      assert [parts[1]][1..] == [];
      assert UsesAll([parts[1]]) == Uses(parts[1]) + UsesAll([]) == [n + 1];
      assert Uses(code.sql) == UsesAll(parts) == Uses(parts[0]) + UsesAll(parts[1..]);
      assert Uses(code.sql) == [n, n + 1];
      PairUses(n, n + 1);
    } else {
      RepeatedUse([n], n);
    }
  }

  lemma LeafNumbering(dec: Decoders, cond: Cond, n: nat)
    requires TypedCond(dec, cond)
    ensures FirstUses(Uses(LeafCode(dec, cond, n).sql)) == Range(n, |LeafCode(dec, cond, n).args|)
  {
    match cond
    case FreeText(term) => FreeTextNumbering(term, n);
    case Tagged(f, op, value) =>
      var code := LeafCode(dec, cond, n);
      if f.name == "signed" {
        assert Uses(code.sql) == [];
      } else if f.ftype == DateField && f.name !in {"crew", "approachType"} {
        DateNumbering(OfFlight(f.column), op, dec.dateRange(value).value.0, dec.dateRange(value).value.1, n);
      } else {
        assert Uses(code.sql) == [n];
        RepeatedUse([n], n);
      }
  }

  /** The placeholders are exactly startArg .. startArg + len(args) - 1, in first-use order. */
  lemma {:induction false} PlaceholderNumbering(dec: Decoders, q: Node, n: nat)
    requires Typed(dec, q)
    ensures FirstUses(Uses(Compile(dec, q, n).sql)) == Range(n, |Compile(dec, q, n).args|)
    decreases q, 1
  {
    match q
    case And(cs) => PlaceholderNumberingAll(dec, cs, n);
    case Or(cs) => PlaceholderNumberingAll(dec, cs, n);
    case Not(c) => PlaceholderNumbering(dec, c, n);
    case Leaf(cond) => LeafNumbering(dec, cond, n);
  }

  lemma {:induction false} PlaceholderNumberingAll(dec: Decoders, qs: seq<Node>, n: nat)
    requires TypedAll(dec, qs)
    ensures FirstUses(UsesAll(CompileAll(dec, qs, n).sqls)) == Range(n, |CompileAll(dec, qs, n).args|)
    decreases qs, 0
  {
    hide Compile, CompileAll, Uses, UsesAll, FirstUses, Range;
    CompileAllCons(dec, qs, n);
    if qs == [] {
      NothingNumbered(n);
    } else {
      var first := Compile(dec, qs[0], n);
      var rest := CompileAll(dec, qs[1..], n + |first.args|);
      PlaceholderNumbering(dec, qs[0], n);
      PlaceholderNumberingAll(dec, qs[1..], n + |first.args|);
      UsesAllCons(first.sql, rest.sqls);
      FirstUsesConcat(Uses(first.sql), UsesAll(rest.sqls), n, |first.args|, |rest.args|);
    }
  }

  lemma NothingNumbered(n: nat)
    ensures FirstUses(UsesAll([])) == Range(n, 0)
  {
  }

  /** Every placeholder number raised by `k`. */
  function Shift(s: Sql, k: nat): Sql
    decreases s, 1
  {
    match s
    case SqlAnd(parts) => SqlAnd(ShiftAll(parts, k))
    case SqlOr(parts) => SqlOr(ShiftAll(parts, k))
    case SqlNot(a) => SqlNot(Shift(a, k))
    case ILike(e, ph) => ILike(e, ph + k)
    case LowerCmp(e, d, ph) => LowerCmp(e, d, ph + k)
    case Cmp(e, op, ph) => Cmp(e, op, ph + k)
    case SignatureIsNull(b) => s
    case ExistsCrew(w) => ExistsCrew(Shift(w, k))
    case ExistsApproach(w) => ExistsApproach(Shift(w, k))
  }

  function ShiftAll(parts: seq<Sql>, k: nat): (r: seq<Sql>)
    ensures |r| == |parts|
    decreases parts, 0
  {
    if parts == [] then [] else [Shift(parts[0], k)] + ShiftAll(parts[1..], k)
  }

  lemma ShiftAllCons(s: Sql, rest: seq<Sql>, k: nat)
    ensures ShiftAll([s] + rest, k) == [Shift(s, k)] + ShiftAll(rest, k)
  {
    assert ([s] + rest)[1..] == rest;
  }

  lemma {:induction false} ShiftAllIs(a: seq<Sql>, b: seq<Sql>, k: nat)
    requires |a| == |b| && forall i | 0 <= i < |a| :: b[i] == Shift(a[i], k)
    ensures b == ShiftAll(a, k)
  {
    if a != [] {
      ShiftAllIs(a[1..], b[1..], k);
      assert b == [b[0]] + b[1..];
    }
  }

  lemma FreeTextShift(term: string, n: nat, k: nat)
    ensures FreeTextCode(term, n + k) == Code(Shift(FreeTextCode(term, n).sql, k), FreeTextCode(term, n).args)
  {
    var a, b := FreeTextCode(term, n).sql.parts, FreeTextCode(term, n + k).sql.parts;
    var w := ILike(CrewName, n);
    assert Shift(ExistsCrew(w), k) == ExistsCrew(Shift(w, k));
    assert Shift(w, k) == ILike(CrewName, n + k);
    forall i | 0 <= i < |a| ensures b[i] == Shift(a[i], k) {
      assert i == |FREE_TEXT_COLUMNS| ==> a[i] == ExistsCrew(w);
    }
    ShiftAllIs(a, b, k);
  }

  lemma DateShift(e: Expr, op: Op, start: int, next: int, n: nat, k: nat)
    ensures DateCode(e, op, start, next, n + k)
         == Code(Shift(DateCode(e, op, start, next, n).sql, k), DateCode(e, op, start, next, n).args)
  {
    var a, b := DateCode(e, op, start, next, n), DateCode(e, op, start, next, n + k);
    if |a.args| == 2 {
      ShiftAllIs(a.sql.parts, b.sql.parts, k);
    }
  }

  lemma LeafShift(dec: Decoders, cond: Cond, n: nat, k: nat)
    requires TypedCond(dec, cond)
    ensures LeafCode(dec, cond, n + k) == Code(Shift(LeafCode(dec, cond, n).sql, k), LeafCode(dec, cond, n).args)
  {
    match cond
    case FreeText(term) => FreeTextShift(term, n, k);
    case Tagged(f, op, value) =>
      if f.ftype == DateField && f.name !in {"crew", "approachType", "signed"} {
        DateShift(OfFlight(f.column), op, dec.dateRange(value).value.0, dec.dateRange(value).value.1, n, k);
      }
  }

  /** Changing startArg only renames the placeholders. */
  lemma {:induction false} StartArgOnlyRenames(dec: Decoders, q: Node, n: nat, k: nat)
    requires Typed(dec, q)
    ensures Compile(dec, q, n + k) == Code(Shift(Compile(dec, q, n).sql, k), Compile(dec, q, n).args)
    decreases q, 1
  {
    match q
    case And(cs) => StartArgOnlyRenamesAll(dec, cs, n, k);
    case Or(cs) => StartArgOnlyRenamesAll(dec, cs, n, k);
    case Not(c) => StartArgOnlyRenames(dec, c, n, k);
    case Leaf(cond) => LeafShift(dec, cond, n, k);
  }

  lemma {:induction false} StartArgOnlyRenamesAll(dec: Decoders, qs: seq<Node>, n: nat, k: nat)
    requires TypedAll(dec, qs)
    ensures CompileAll(dec, qs, n + k) == Codes(ShiftAll(CompileAll(dec, qs, n).sqls, k), CompileAll(dec, qs, n).args)
    decreases qs, 0
  {
    hide Compile, CompileAll, Shift, ShiftAll;
    CompileAllCons(dec, qs, n);
    CompileAllCons(dec, qs, n + k);
    if qs == [] {
      assert ShiftAll([], k) == [];
    } else {
      var first := Compile(dec, qs[0], n);
      StartArgOnlyRenames(dec, qs[0], n, k);
      StartArgOnlyRenamesAll(dec, qs[1..], n + |first.args|, k);
      var rest := CompileAll(dec, qs[1..], n + |first.args|);
      assert CompileAll(dec, qs[1..], n + k + |first.args|) == Codes(ShiftAll(rest.sqls, k), rest.args);
      ShiftAllCons(first.sql, rest.sqls, k);
    }
  }

  // --- Complements ---------------------------------------------------------------------

  ghost predicate MemberIs(row: Row, i: nat, value: string)
    requires i < |row.crew|
  {
    row.lower(row.crew[i]) == row.lower(value)
  }

  /** On the crew both `=` and `!=` are existential: they are complements exactly
      when there is a crew and its members all agree on the value. */
  lemma CrewNeIsComplementIff(dec: Decoders, f: Field, value: string, row: Row)
    requires f.name == "crew"
    ensures LeafMeaning(dec, Tagged(f, Ne, value), row) == Not3(LeafMeaning(dec, Tagged(f, Eq, value), row))
            <==> row.crew != [] && forall i, j | 0 <= i < |row.crew| && 0 <= j < |row.crew| ::
                   MemberIs(row, i, value) == MemberIs(row, j, value)
  {
    var ne, eq := LeafMeaning(dec, Tagged(f, Ne, value), row), LeafMeaning(dec, Tagged(f, Eq, value), row);
    assert forall i | 0 <= i < |row.crew| :: TextHolds(row, row.crew[i], Eq, value) == MemberIs(row, i, value);
    assert forall i | 0 <= i < |row.crew| :: TextHolds(row, row.crew[i], Ne, value) == !MemberIs(row, i, value);
    assert eq == True <==> exists i | 0 <= i < |row.crew| :: MemberIs(row, i, value);
    assert ne == True <==> exists i | 0 <= i < |row.crew| :: !MemberIs(row, i, value);
    if row.crew != [] {
      assert MemberIs(row, 0, value) || !MemberIs(row, 0, value);
    }
  }

  /** On the approaches too, where only those with a type are looked at: complements exactly
      when some approach has a type and all that have one agree on the value. */
  lemma ApproachNeIsComplementIff(dec: Decoders, f: Field, value: string, row: Row)
    requires f.name == "approachType"
    ensures LeafMeaning(dec, Tagged(f, Ne, value), row) == Not3(LeafMeaning(dec, Tagged(f, Eq, value), row))
            <==> (exists i | 0 <= i < |row.approaches| :: row.approaches[i].Some?)
                 && forall i, j | 0 <= i < |row.approaches| && 0 <= j < |row.approaches|
                                  && row.approaches[i].Some? && row.approaches[j].Some? ::
                      TypeIs(row, i, value) == TypeIs(row, j, value)
  {
    var ne, eq := LeafMeaning(dec, Tagged(f, Ne, value), row), LeafMeaning(dec, Tagged(f, Eq, value), row);
    assert forall i | 0 <= i < |row.approaches| && row.approaches[i].Some? ::
      && TextHolds(row, row.approaches[i].value, Eq, value) == TypeIs(row, i, value)
      && TextHolds(row, row.approaches[i].value, Ne, value) == !TypeIs(row, i, value);
    assert eq == True <==> exists i | 0 <= i < |row.approaches| :: row.approaches[i].Some? && TypeIs(row, i, value);
    assert ne == True <==> exists i | 0 <= i < |row.approaches| :: row.approaches[i].Some? && !TypeIs(row, i, value);
  }

  ghost predicate TypeIs(row: Row, i: nat, value: string)
    requires i < |row.approaches| && row.approaches[i].Some?
  {
    row.lower(row.approaches[i].value) == row.lower(value)
  }

  /** Neither is a complement in general: a crew of two, or two typed approaches, that differ on
      the value satisfy both `=` and `!=`, and an empty list satisfies neither. */
  lemma NeIsNoComplement(dec: Decoders, crew: Field, approach: Field, value: string, other: string, row: Row)
    requires crew.name == "crew" && approach.name == "approachType" && row.lower(other) != row.lower(value)
    ensures var both := row.(crew := [value, other], approaches := [Some(value), Some(other)]);
            && LeafMeaning(dec, Tagged(crew, Eq, value), both) == LeafMeaning(dec, Tagged(crew, Ne, value), both) == True
            && LeafMeaning(dec, Tagged(approach, Eq, value), both) == LeafMeaning(dec, Tagged(approach, Ne, value), both) == True
    ensures var none := row.(crew := [], approaches := [None]);
            && LeafMeaning(dec, Tagged(crew, Eq, value), none) == LeafMeaning(dec, Tagged(crew, Ne, value), none) == False
            && LeafMeaning(dec, Tagged(approach, Eq, value), none) == LeafMeaning(dec, Tagged(approach, Ne, value), none) == False
  {
    var both := row.(crew := [value, other], approaches := [Some(value), Some(other)]);
    assert TextHolds(both, both.crew[0], Eq, value) && TextHolds(both, both.crew[1], Ne, value);
    assert TextHolds(both, both.approaches[0].value, Eq, value) && TextHolds(both, both.approaches[1].value, Ne, value);
  }

  // --- The builder -------------------------------------------------------------------------

  /** sqlBuilder: the bind values so far and the next placeholder number. */
  class SqlBuilder {
    var args: seq<Value>
    var argNum: nat

    constructor (startArg: nat)
      ensures args == [] && argNum == startArg
    {
      args, argNum := [], startArg;
    }

    /** The state after rendering a condition with these bind values. */
    twostate predicate Appended(more: seq<Value>)
      reads this
    {
      args == old(args) + more && argNum == old(argNum) + |more|
    }

    method Bind(v: Value) returns (ph: nat)
      modifies this
      ensures ph == old(argNum) && Appended([v])
    {
      ph := argNum;
      args := args + [v];
      argNum := argNum + 1;
    }

    method RenderText(e: Expr, op: Op, value: string) returns (s: Sql)
      requires op in {Colon, Eq, Ne}
      modifies this
      ensures s == TextCode(e, op, value, old(argNum)).sql && Appended(TextCode(e, op, value, old(argNum)).args)
    {
      if op == Colon {
        var ph := Bind(Text(ContainsPattern(value)));
        s := ILike(e, ph);
      } else {
        var ph := Bind(Text(value));
        s := LowerCmp(e, op == Ne, ph);
      }
    }

    method RenderDate(e: Expr, op: Op, start: int, next: int) returns (s: Sql)
      modifies this
      ensures s == DateCode(e, op, start, next, old(argNum)).sql && Appended(DateCode(e, op, start, next, old(argNum)).args)
    {
      match op
      case Ne =>
        var a := Bind(Instant(start));
        var b := Bind(Instant(next));
        s := SqlOr([Cmp(e, LtOp, a), Cmp(e, GeOp, b)]);
      case Gt => var a := Bind(Instant(next)); s := Cmp(e, GeOp, a);
      case Ge => var a := Bind(Instant(start)); s := Cmp(e, GeOp, a);
      case Lt => var a := Bind(Instant(start)); s := Cmp(e, LtOp, a);
      case Le => var a := Bind(Instant(next)); s := Cmp(e, LtOp, a);
      case _ =>
        var a := Bind(Instant(start));
        var b := Bind(Instant(next));
        s := SqlAnd([Cmp(e, GeOp, a), Cmp(e, LtOp, b)]);
    }

    method RenderFreeText(term: string) returns (s: Sql)
      modifies this
      ensures s == FreeTextCode(term, old(argNum)).sql && Appended(FreeTextCode(term, old(argNum)).args)
    {
      var ph := Bind(Text(ContainsPattern(term)));
      var parts: seq<Sql> := [];
      for i := 0 to |FREE_TEXT_COLUMNS|
        invariant parts == FreeTextParts(FREE_TEXT_COLUMNS[..i], ph)
      {
        parts := parts + [ILike(OfFlight(Coalesced(FREE_TEXT_COLUMNS[i])), ph)];
      }
      assert FREE_TEXT_COLUMNS[..|FREE_TEXT_COLUMNS|] == FREE_TEXT_COLUMNS;
      parts := parts + [ExistsCrew(ILike(CrewName, ph))];
      s := SqlOr(parts);
    }

    method RenderLeaf(dec: Decoders, cond: Cond) returns (s: Sql)
      requires TypedCond(dec, cond)
      modifies this
      ensures s == LeafCode(dec, cond, old(argNum)).sql && Appended(LeafCode(dec, cond, old(argNum)).args)
    {
      match cond
      case FreeText(term) => s := RenderFreeText(term);
      case Tagged(f, op, value) =>
        if f.name == "crew" {
          var inner := RenderText(CrewName, op, value);
          s := ExistsCrew(inner);
        } else if f.name == "approachType" {
          var inner := RenderText(ApproachTypeOf, op, value);
          s := ExistsApproach(inner);
        } else if f.name == "signed" {
          s := SignatureIsNull(ParseBool(value).value != (op == Ne));
        } else if f.ftype == TextField {
          s := RenderText(OfFlight(f.column), op, value);
        } else if f.ftype == DateField {
          s := RenderDate(OfFlight(f.column), op, dec.dateRange(value).value.0, dec.dateRange(value).value.1);
        } else if f.ftype == ClockField {
          var ph := Bind(Clock(dec.clock(value).value));
          s := Cmp(OfFlight(f.column), CompareOp(op), ph);
        } else if f.ftype == BoolField {
          var ph := Bind(Bool(ParseBool(value).value != (op == Ne)));
          s := Cmp(OfFlight(f.column), EqOp, ph);
        } else {
          var v := match f.ftype
            case DurationField => Int(ParseDurationMinutes(dec, value).value)
            case IntField => Int(dec.atoi(value).value)
            case NumberField => Num(dec.parseFloat(value).value);
          var ph := Bind(v);
          s := Cmp(OfFlight(f.column), CompareOp(op), ph);
        }
    }

    method Render(dec: Decoders, q: Node) returns (s: Sql)
      requires Typed(dec, q)
      modifies this
      ensures s == Compile(dec, q, old(argNum)).sql && Appended(Compile(dec, q, old(argNum)).args)
      decreases q, 1
    {
      match q
      case And(cs) => var parts := RenderChildren(dec, cs); s := SqlAnd(parts);
      case Or(cs) => var parts := RenderChildren(dec, cs); s := SqlOr(parts);
      case Not(c) => var inner := Render(dec, c); s := SqlNot(inner);
      case Leaf(cond) => s := RenderLeaf(dec, cond);
    }

    /** joinChildren */
    method RenderChildren(dec: Decoders, qs: seq<Node>) returns (parts: seq<Sql>)
      requires TypedAll(dec, qs)
      modifies this
      ensures parts == CompileAll(dec, qs, old(argNum)).sqls && Appended(CompileAll(dec, qs, old(argNum)).args)
      decreases qs, 0
    {
      parts := [];
      var i := 0;
      ghost var whole := JoinFrom(dec, qs, [], args, argNum);
      JoinFromCompileAll(dec, qs, [], args, argNum);
      while i < |qs|
        invariant 0 <= i <= |qs|
        invariant TypedAll(dec, qs[i..])
        invariant JoinFrom(dec, qs[i..], parts, args, argNum) == whole
      {
        assert qs[i..][1..] == qs[i + 1..];
        var s := Render(dec, qs[i]);
        parts := parts + [s];
        i := i + 1;
      }
      assert qs[i..] == [];
    }
  }

  datatype Joined = Joined(parts: seq<Sql>, args: seq<Value>, argNum: nat)

  /** The loop of joinChildren, from the parts and the builder state it has reached. */
  function JoinFrom(dec: Decoders, qs: seq<Node>, parts: seq<Sql>, args: seq<Value>, n: nat): Joined
    requires TypedAll(dec, qs)
    decreases |qs|
  {
    if qs == [] then Joined(parts, args, n)
    else
      var c := Compile(dec, qs[0], n);
      JoinFrom(dec, qs[1..], parts + [c.sql], args + c.args, n + |c.args|)
  }

  lemma {:induction false} JoinFromCompileAll(dec: Decoders, qs: seq<Node>, parts: seq<Sql>, args: seq<Value>, n: nat)
    requires TypedAll(dec, qs)
    ensures var r := CompileAll(dec, qs, n);
            JoinFrom(dec, qs, parts, args, n) == Joined(parts + r.sqls, args + r.args, n + |r.args|)
    decreases |qs|
  {
    if qs != [] {
      var c := Compile(dec, qs[0], n);
      var rest := CompileAll(dec, qs[1..], n + |c.args|);
      JoinFromCompileAll(dec, qs[1..], parts + [c.sql], args + c.args, n + |c.args|);
      Regroup(parts, [c.sql], rest.sqls);
      Regroup(args, c.args, rest.args);
    }
  }

  /** Query.Compile */
  method CompileQuery(dec: Decoders, q: Node, startArg: nat) returns (s: Sql, args: seq<Value>)
    requires Typed(dec, q)
    ensures Code(s, args) == Compile(dec, q, startArg)
    ensures FirstUses(Uses(s)) == Range(startArg, |args|)
    ensures forall ps: Params, row: Row :: Binds(ps, startArg, args) ==>
              Eval(s, FlightScope(row), ps) == Meaning(dec, q, row)
  {
    var b := new SqlBuilder(startArg);
    s := b.Render(dec, q);
    args := b.args;
    assert args == Compile(dec, q, startArg).args;
    PlaceholderNumbering(dec, q, startArg);
    forall ps: Params, row: Row | Binds(ps, startArg, args)
      ensures Eval(s, FlightScope(row), ps) == Meaning(dec, q, row)
    {
      CompilePreservesMeaning(dec, q, startArg, ps, row);
    }
  }
}
