// The search language's trees: tags, operators, conditions and their typing.

module SearchSyntax {
  import opened Common
  import opened Like

  datatype FieldType = TextField | DurationField | IntField | NumberField | BoolField | DateField | ClockField

  /** The flight column a tag compares against. Text columns are wrapped in COALESCE(column, ''). */
  datatype ColumnRef = Column(name: string) | Coalesced(name: string)

  /** A searchable tag. The column of `crew`, `approachType` and `signed` is not used. */
  datatype Field = Field(name: string, column: ColumnRef, ftype: FieldType)

  datatype Op = Colon | Eq | Ne | Gt | Ge | Lt | Le

  function OpText(op: Op): string {
    match op
    case Colon => ":"
    case Eq => "="
    case Ne => "!="
    case Gt => ">"
    case Ge => ">="
    case Lt => "<"
    case Le => "<="
  }

  /** A leaf: `field OP value`, or a bare term. */
  datatype Cond = Tagged(field: Field, op: Op, value: string) | FreeText(term: string)

  datatype Node = And(children: seq<Node>) | Or(children: seq<Node>) | Not(child: Node) | Leaf(cond: Cond)

  /** The library parsers for numbers, dates and times of day. A date yields the
      half-open range of instants it denotes, a time of day its second. */
  datatype Decoders = Decoders(
    atoi: string -> Option<int>,
    parseFloat: string -> Option<real>,
    dateRange: string -> Option<(int, int)>,
    clock: string -> Option<int>)

  // --- Values -----------------------------------------------------------------

  const MAX_DURATION_HOURS := 366 * 24
  const MAX_DURATION_MINUTES := MAX_DURATION_HOURS * 60

  /** The position of the first colon, or |s|. */
  function ColonAt(s: string): (i: nat)
    ensures i <= |s|
    ensures i < |s| ==> s[i] == ':'
    ensures ':' !in s[..i]
  {
    if s == [] || s[0] == ':' then 0
    else
      assert forall k: nat :: k <= |s[1..]| ==> s[..k + 1] == [s[0]] + s[1..][..k];
      1 + ColonAt(s[1..])
  }

  lemma {:induction false} ColonAtFirst(s: string, i: nat)
    requires i < |s| && s[i] == ':' && ':' !in s[..i]
    ensures ColonAt(s) == i
  {
    if i > 0 {
      assert s[0] == s[..i][0];
      assert s[1..][..i - 1] == s[..i][1..];
      ColonAtFirst(s[1..], i - 1);
    }
  }

  function HoursAndMinutes(h: int, m: int, width: nat): Option<int> {
    if h < 0 || h > MAX_DURATION_HOURS || m < 0 || m > 59 || width != 2 then None else Some(h * 60 + m)
  }

  function DecimalHours(hours: real): (r: Option<int>)
    ensures r.Some? ==> 0 <= r.value <= MAX_DURATION_MINUTES
  {
    if hours < 0.0 || hours > MAX_DURATION_HOURS as real then None else Some((hours * 60.0 + 0.5).Floor)
  }

  function PlainMinutes(m: int): Option<int> {
    if m < 0 || m > MAX_DURATION_MINUTES then None else Some(m)
  }

  /** Minutes ("90"), H:MM ("1:30") or decimal hours ("1.5h"). */
  function ParseDurationMinutes(dec: Decoders, s: string): (r: Option<int>)
    ensures r.Some? ==> 0 <= r.value <= MAX_DURATION_MINUTES + 59
    ensures r.Some? && ':' !in s ==> r.value <= MAX_DURATION_MINUTES
  {
    var c := ColonAt(s);
    if c < |s| then
      var h, m := dec.atoi(s[..c]), dec.atoi(s[c + 1..]);
      if h.None? || m.None? then None else HoursAndMinutes(h.value, m.value, |s| - c - 1)
    else if s != [] && s[|s| - 1] in {'h', 'H'} then
      var hours := dec.parseFloat(s[..|s| - 1]);
      if hours.None? then None else DecimalHours(hours.value)
    else
      var m := dec.atoi(s);
      if m.None? then None else PlainMinutes(m.value)
  }

  /** The declared cap bounds a parsed H:MM duration unless the hour count is
      maximal and the minute part nonzero; it bounds every other form. */
  lemma DurationCap(h: int, m: int, width: nat)
    requires HoursAndMinutes(h, m, width).Some?
    ensures HoursAndMinutes(h, m, width).value > MAX_DURATION_MINUTES <==> h == MAX_DURATION_HOURS && m > 0
  {
    assert h * 60 <= MAX_DURATION_HOURS * 60;
  }

  /** "8784:59" is accepted and is 59 minutes over the declared cap. */
  lemma DurationCapExceeded(dec: Decoders)
    requires dec.atoi("8784") == Some(8784) && dec.atoi("59") == Some(59)
    ensures ParseDurationMinutes(dec, "8784:59") == Some(MAX_DURATION_MINUTES + 59)
  {
    var s := "8784:59";
    ColonAtFirst(s, 4);
    assert s[..4] == "8784" && s[5..] == "59";
  }

  function ParseBool(s: string): Option<bool> {
    if Lower(s) in {"true", "yes", "1"} then Some(true)
    else if Lower(s) in {"false", "no", "0"} then Some(false)
    else None
  }

  // --- What a value says ---------------------------------------------------------

  /** The word, each letter in either case. */
  predicate AnyCase(s: string, word: string) {
    |s| == |word| && forall i | 0 <= i < |s| :: s[i] == word[i] || ('a' <= word[i] <= 'z' && s[i] as int + 32 == word[i] as int)
  }

  predicate SaysTrue(s: string) { AnyCase(s, "true") || AnyCase(s, "yes") || s == "1" }

  predicate SaysFalse(s: string) { AnyCase(s, "false") || AnyCase(s, "no") || s == "0" }

  lemma LowerIsAnyCase(s: string, word: string)
    requires forall i | 0 <= i < |word| :: 'a' <= word[i] <= 'z'
    ensures Lower(s) == word <==> AnyCase(s, word)
  {
    if AnyCase(s, word) { assert forall i | 0 <= i < |s| :: Lower(s)[i] == word[i]; }
    if Lower(s) == word {
      forall i | 0 <= i < |s| ensures s[i] == word[i] || s[i] as int + 32 == word[i] as int {
        assert Lower(s)[i] == LowerChar(s[i]);
      }
    }
  }

  lemma LowerIsDigit(s: string, d: char)
    requires '0' <= d <= '9'
    ensures Lower(s) == [d] <==> s == [d]
  {
    if Lower(s) == [d] { assert Lower(s)[0] == LowerChar(s[0]); }
  }

  /** A boolean is read as what its word says, and nothing else is one. */
  lemma BooleanReads(s: string)
    ensures ParseBool(s) == Some(true) <==> SaysTrue(s)
    ensures ParseBool(s) == Some(false) <==> SaysFalse(s)
    ensures ParseBool(s).Some? <==> SaysTrue(s) || SaysFalse(s)
  {
    hide AnyCase, Lower;
    LowerIsAnyCase(s, "true");
    LowerIsAnyCase(s, "yes");
    LowerIsAnyCase(s, "false");
    LowerIsAnyCase(s, "no");
    LowerIsDigit(s, '1');
    LowerIsDigit(s, '0');
  }

  /** Hours, the first colon and two digits of minutes. */
  ghost predicate SaysHoursAndMinutes(dec: Decoders, s: string, m: int) {
    exists i, h, k | 0 <= i < |s| && dec.atoi(s[..i]) == Some(h) && dec.atoi(s[i + 1..]) == Some(k) ::
      s[i] == ':' && ':' !in s[..i] && |s| == i + 3 && 0 <= h <= MAX_DURATION_HOURS && 0 <= k <= 59 && m == 60 * h + k
  }

  /** A number of hours and an h: the nearest whole minute, half a minute counting up. */
  ghost predicate SaysHours(dec: Decoders, s: string, m: int) {
    && s != "" && s[|s| - 1] in {'h', 'H'} && ':' !in s && dec.parseFloat(s[..|s| - 1]).Some?
    && var x := dec.parseFloat(s[..|s| - 1]).value;
       0.0 <= x <= MAX_DURATION_HOURS as real && m as real - 0.5 <= 60.0 * x < m as real + 0.5
  }

  ghost predicate SaysPlainMinutes(dec: Decoders, s: string, m: int) {
    (s == "" || s[|s| - 1] !in {'h', 'H'}) && ':' !in s && dec.atoi(s) == Some(m) && 0 <= m <= MAX_DURATION_MINUTES
  }

  ghost predicate SaysMinutes(dec: Decoders, s: string, m: int) {
    SaysHoursAndMinutes(dec, s, m) || SaysHours(dec, s, m) || SaysPlainMinutes(dec, s, m)
  }

  lemma HoursAndMinutesRead(dec: Decoders, s: string, m: int)
    requires ':' in s
    ensures ParseDurationMinutes(dec, s) == Some(m) <==> SaysHoursAndMinutes(dec, s, m)
  {
    var c := ColonAt(s);
    assert s[..|s|] == s;
    forall i | 0 <= i < |s| && s[i] == ':' && ':' !in s[..i] ensures i == c {
      ColonAtFirst(s, i);
    }
    ColonSplits(dec, s, m, c, dec.atoi(s[..c]), dec.atoi(s[c + 1..]));
  }

  lemma ColonSplits(dec: Decoders, s: string, m: int, c: nat, h: Option<int>, k: Option<int>)
    requires c == ColonAt(s) < |s| && h == dec.atoi(s[..c]) && k == dec.atoi(s[c + 1..])
    ensures ParseDurationMinutes(dec, s) == Some(m) <==>
            && h.Some? && k.Some? && |s| == c + 3 && 0 <= h.value <= MAX_DURATION_HOURS && 0 <= k.value <= 59
            && m == 60 * h.value + k.value
  {
    hide ColonAt, HoursAndMinutes;
    if h.Some? && k.Some? { HoursAndMinutesIff(h.value, k.value, |s| - c - 1, m); }
  }

  lemma HoursAndMinutesIff(h: int, k: int, width: nat, m: int)
    ensures HoursAndMinutes(h, k, width) == Some(m) <==> width == 2 && 0 <= h <= MAX_DURATION_HOURS && 0 <= k <= 59 && m == 60 * h + k
  {
  }

  lemma OtherDurationsRead(dec: Decoders, s: string, m: int)
    requires ':' !in s
    ensures ParseDurationMinutes(dec, s) == Some(m) <==> SaysHours(dec, s, m) || SaysPlainMinutes(dec, s, m)
  {
    assert ColonAt(s) == |s|;
  }

  lemma SaysColon(dec: Decoders, s: string, m: int)
    requires SaysHoursAndMinutes(dec, s, m)
    ensures ':' in s
  {
  }

  /** A duration is read as the minutes it says, in whichever of the three forms. */
  lemma DurationReads(dec: Decoders, s: string, m: int)
    ensures ParseDurationMinutes(dec, s) == Some(m) <==> SaysMinutes(dec, s, m)
  {
    hide ParseDurationMinutes, SaysHoursAndMinutes;
    if SaysHoursAndMinutes(dec, s, m) { SaysColon(dec, s, m); }
    if ':' in s { HoursAndMinutesRead(dec, s, m); } else { OtherDurationsRead(dec, s, m); }
  }

  lemma DurationSays(dec: Decoders, s: string)
    ensures ParseDurationMinutes(dec, s).Some? <==> exists m :: SaysMinutes(dec, s, m)
  {
    hide ParseDurationMinutes, SaysMinutes;
    var d := ParseDurationMinutes(dec, s);
    if d.Some? { DurationReads(dec, s, d.value); }
    forall m | SaysMinutes(dec, s, m) ensures d == Some(m) { DurationReads(dec, s, m); }
  }

  /** Minutes written as H:MM, as a plain number or as decimal hours read back as those minutes. */
  lemma DurationReadsBack(dec: Decoders, hours: string, mins: string, h: int, k: int)
    requires 0 <= h <= MAX_DURATION_HOURS && 0 <= k <= 59 && dec.atoi(hours) == Some(h) && ':' !in hours
    requires |mins| == 2 && dec.atoi(mins) == Some(k)
    ensures ParseDurationMinutes(dec, hours + [':'] + mins) == Some(60 * h + k)
    ensures hours != "" && hours[|hours| - 1] !in {'h', 'H'} ==> ParseDurationMinutes(dec, hours) == Some(h)
    ensures dec.parseFloat(hours) == Some(h as real) ==> ParseDurationMinutes(dec, hours + "h") == Some(60 * h)
  {
    var s := hours + [':'] + mins;
    assert s[|hours|] == ':' && s[..|hours|] == hours && s[|hours| + 1..] == mins;
    ColonAtFirst(s, |hours|);
    assert (hours + "h")[..|hours|] == hours && ColonAt(hours) == |hours| && ':' !in hours + "h";
    assert ColonAt(hours + "h") == |hours| + 1;
    assert dec.parseFloat(hours) == Some(h as real) ==> (60 * h) as real == h as real * 60.0;
  }

  // --- Typing ---------------------------------------------------------------------

  /** Tags whose conditions are only equality, difference and containment. */
  predicate OnlyEquality(f: Field) { !ByType(f) || f.ftype == TextField || f.ftype == BoolField }

  /** Tags decided by their type. */
  predicate ByType(f: Field) { f.name != "crew" && f.name != "approachType" && f.name != "signed" }

  /** A condition is accepted exactly when its operator suits the tag and its value says
      something of the tag's kind. */
  lemma AcceptedIff(dec: Decoders, f: Field, op: Op, value: string)
    ensures TypedField(dec, f, op, value) <==>
            && (OnlyEquality(f) ==> op in {Colon, Eq, Ne})
            && (f.name == "signed" || (ByType(f) && f.ftype == BoolField) ==> SaysTrue(value) || SaysFalse(value))
            && (ByType(f) && f.ftype == DurationField ==> exists m :: SaysMinutes(dec, value, m))
            && (ByType(f) && f.ftype == IntField ==> dec.atoi(value).Some?)
            && (ByType(f) && f.ftype == NumberField ==> dec.parseFloat(value).Some?)
            && (ByType(f) && f.ftype == DateField ==> dec.dateRange(value).Some?)
            && (ByType(f) && f.ftype == ClockField ==> dec.clock(value).Some?)
  {
    hide ParseDurationMinutes, SaysMinutes, ParseBool, SaysTrue, SaysFalse;
    BooleanReads(value);
    DurationSays(dec, value);
  }

  /** Whether the field accepts the operator and the value; newFieldLeaf refuses the rest. */
  predicate TypedField(dec: Decoders, f: Field, op: Op, value: string) {
    if f.name == "crew" || f.name == "approachType" then op in {Colon, Eq, Ne}
    else if f.name == "signed" then op in {Colon, Eq, Ne} && ParseBool(value).Some?
    else
      match f.ftype
      case TextField => op in {Colon, Eq, Ne}
      case DurationField => ParseDurationMinutes(dec, value).Some?
      case IntField => dec.atoi(value).Some?
      case NumberField => dec.parseFloat(value).Some?
      case BoolField => op in {Colon, Eq, Ne} && ParseBool(value).Some?
      case DateField => dec.dateRange(value).Some?
      case ClockField => dec.clock(value).Some?
  }

  predicate TypedCond(dec: Decoders, c: Cond) {
    c.FreeText? || TypedField(dec, c.field, c.op, c.value)
  }

  /** Every condition of the tree passed validation. */
  predicate Typed(dec: Decoders, n: Node)
    decreases n, 1
  {
    match n
    case And(cs) => TypedAll(dec, cs)
    case Or(cs) => TypedAll(dec, cs)
    case Not(c) => Typed(dec, c)
    case Leaf(cond) => TypedCond(dec, cond)
  }

  predicate TypedAll(dec: Decoders, ns: seq<Node>)
    decreases ns, 0
  {
    ns == [] || (Typed(dec, ns[0]) && TypedAll(dec, ns[1..]))
  }

  lemma {:induction false} TypedAppend(dec: Decoders, ns: seq<Node>, n: Node)
    ensures TypedAll(dec, ns + [n]) <==> TypedAll(dec, ns) && Typed(dec, n)
  {
    if ns == [] {
      assert (ns + [n])[1..] == [];
    } else {
      assert (ns + [n])[1..] == ns[1..] + [n];
      TypedAppend(dec, ns[1..], n);
    }
  }

  // --- Budgets ----------------------------------------------------------------

  function Terms(n: Node): (k: nat)
    decreases n, 1
  {
    match n
    case And(cs) => TermsAll(cs)
    case Or(cs) => TermsAll(cs)
    case Not(c) => Terms(c)
    case Leaf(_) => 1
  }

  function TermsAll(ns: seq<Node>): (k: nat)
    decreases ns, 0
  {
    if ns == [] then 0 else Terms(ns[0]) + TermsAll(ns[1..])
  }

  function FreeTerms(n: Node): (k: nat)
    decreases n, 1
  {
    match n
    case And(cs) => FreeTermsAll(cs)
    case Or(cs) => FreeTermsAll(cs)
    case Not(c) => FreeTerms(c)
    case Leaf(cond) => if cond.FreeText? then 1 else 0
  }

  function FreeTermsAll(ns: seq<Node>): (k: nat)
    decreases ns, 0
  {
    if ns == [] then 0 else FreeTerms(ns[0]) + FreeTermsAll(ns[1..])
  }

  lemma {:induction false} BudgetAppend(ns: seq<Node>, n: Node)
    ensures TermsAll(ns + [n]) == TermsAll(ns) + Terms(n)
    ensures FreeTermsAll(ns + [n]) == FreeTermsAll(ns) + FreeTerms(n)
  {
    if ns == [] {
      assert (ns + [n])[1..] == [];
    } else {
      assert (ns + [n])[1..] == ns[1..] + [n];
      BudgetAppend(ns[1..], n);
    }
  }
}
