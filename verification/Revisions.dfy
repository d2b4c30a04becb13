// Revision history: canonical crew lists, column names, the differences between two
// stored states, and the chain of differences that rebuilds the present.

module Revisions {

  import opened Common
  import opened Ordering

  // --- Crew keys ------------------------------------------------------------------------

  datatype CrewKey = CrewKey(name: string, role: string)

  /** By role, then name. */
  predicate Before(a: CrewKey, b: CrewKey) {
    if a.role != b.role then Less(a.role, b.role) else Less(a.name, b.name)
  }

  lemma BeforeTotal(a: CrewKey, b: CrewKey)
    ensures Before(a, b) || a == b || Before(b, a)
    ensures !(Before(a, b) && Before(b, a)) && !Before(a, a)
  {
    LessTotal(a.role, b.role);
    LessTotal(a.name, b.name);
    LessTotal(a.name, a.name);
  }

  lemma BeforeTransitive(a: CrewKey, b: CrewKey, c: CrewKey)
    requires Before(a, b) && Before(b, c)
    ensures Before(a, c)
  {
    LessTotal(a.role, b.role);
    LessTotal(b.role, c.role);
    LessTotal(a.role, c.role);
    if a.role != b.role && b.role != c.role {
      LessTransitive(a.role, b.role, c.role);
    } else if a.role == b.role == c.role {
      LessTransitive(a.name, b.name, c.name);
    }
  }

  function ByRole(): (CrewKey, CrewKey) -> bool { (a, b) => Before(a, b) }

  lemma ByRoleOrders()
    ensures WeakOrder(ByRole())
  {
    forall a, b, c: CrewKey | ByRole()(a, b) || (!ByRole()(a, b) && !ByRole()(b, c))
      ensures ByRole()(a, b) ==> !ByRole()(b, a)
      ensures !ByRole()(a, b) && !ByRole()(b, c) ==> !ByRole()(a, c)
    {
      NotBeforeTransitive(a, b, c);
    }
  }

  lemma NotBeforeTransitive(a: CrewKey, b: CrewKey, c: CrewKey)
    ensures Before(a, b) ==> !Before(b, a)
    ensures !Before(a, b) && !Before(b, c) ==> !Before(a, c)
  {
    BeforeTotal(a, b);
    BeforeTotal(b, c);
    BeforeTotal(a, c);
    if Before(b, a) && Before(a, c) { BeforeTransitive(b, a, c); }
    if Before(a, c) && Before(c, b) { BeforeTransitive(a, c, b); }
  }

  function SortedCrew(s: seq<CrewKey>): (r: seq<CrewKey>)
    ensures multiset(r) == multiset(s)
  {
    Sort(ByRole(), s)
  }

  lemma SortedCrewInOrder(s: seq<CrewKey>)
    ensures InOrder(ByRole(), SortedCrew(s))
  {
    ByRoleOrders();
    SortInOrder(ByRole(), s);
  }

  lemma HeadsEqual(a: seq<CrewKey>, b: seq<CrewKey>)
    requires InOrder(ByRole(), a) && InOrder(ByRole(), b) && multiset(a) == multiset(b) && a != [] && b != []
    ensures a[0] == b[0] && multiset(a[1..]) == multiset(b[1..])
  {
    hide Before;
    assert a[0] in multiset(b) && b[0] in multiset(a);
    var i :| 0 <= i < |b| && b[i] == a[0];
    var j :| 0 <= j < |a| && a[j] == b[0];
    BeforeTotal(a[0], b[0]);
    TailMultiset(a);
    TailMultiset(b);
  }

  lemma TailMultiset(a: seq<CrewKey>)
    requires a != []
    ensures multiset(a[1..]) == multiset(a) - multiset{a[0]}
  {
    assert a == [a[0]] + a[1..];
  }

  /** A sorted crew list is determined by who is in it and how often. */
  lemma {:induction false} InOrderCanonical(a: seq<CrewKey>, b: seq<CrewKey>)
    requires InOrder(ByRole(), a) && InOrder(ByRole(), b) && multiset(a) == multiset(b)
    ensures a == b
  {
    hide Before;
    SameElements(a, b);
    if a != [] {
      HeadsEqual(a, b);
      InOrderCanonical(a[1..], b[1..]);
      assert a == [a[0]] + a[1..] && b == [b[0]] + b[1..];
    }
  }

  /** SameCrew: equal sorted lists mean the same members, each as often, and conversely. */
  lemma SameCrewIff(a: seq<CrewKey>, b: seq<CrewKey>)
    ensures SortedCrew(a) == SortedCrew(b) <==> multiset(a) == multiset(b)
  {
    if multiset(a) == multiset(b) {
      SortedCrewInOrder(a);
      SortedCrewInOrder(b);
      InOrderCanonical(SortedCrew(a), SortedCrew(b));
    }
  }

  method SortCrewKeys(keys: array<CrewKey>)
    modifies keys
    ensures keys[..] == SortedCrew(old(keys[..]))
    ensures InOrder(ByRole(), keys[..]) && multiset(keys[..]) == multiset(old(keys[..]))
  {
    var sorted := SortedCrew(keys[..]);
    SameElements(sorted, keys[..]);
    SortedCrewInOrder(keys[..]);
    for i := 0 to keys.Length
      invariant forall k | 0 <= k < i :: keys[k] == sorted[k]
    {
      keys[i] := sorted[i];
    }
    assert keys[..] == sorted;
  }

  // --- Column names -------------------------------------------------------------------------

  predicate IsUpper(c: char) { 'A' <= c <= 'Z' }
  predicate IsLower(c: char) { 'a' <= c <= 'z' }
  function Upper(c: char): char { if IsLower(c) then ((c as int) - 32) as char else c }
  function Lower(c: char): char { if IsUpper(c) then ((c as int) + 32) as char else c }

  /** The parts between underscores. */
  function Split(s: string): (parts: seq<string>)
    ensures |parts| >= 1
  {
    if s == "" then [""]
    else
      var rest := Split(s[1..]);
      if s[0] == '_' then [""] + rest else [[s[0]] + rest[0]] + rest[1..]
  }

  function Capital(p: string): string { if p == "" then "" else [Upper(p[0])] + p[1..] }

  function Capitals(parts: seq<string>): string { if parts == [] then "" else Capital(parts[0]) + Capitals(parts[1..]) }

  function Camel(column: string): string { Split(column)[0] + Capitals(Split(column)[1..]) }

  lemma {:induction false} CapitalsAppend(parts: seq<string>, p: string)
    ensures Capitals(parts + [p]) == Capitals(parts) + Capital(p)
  {
    if parts == [] {
      assert parts + [p] == [p] && [p][1..] == [];
    } else {
      assert (parts + [p])[0] == parts[0] && (parts + [p])[1..] == parts[1..] + [p];
      assert Capitals(parts + [p]) == Capital(parts[0]) + Capitals(parts[1..] + [p]);
      assert Capitals(parts) == Capital(parts[0]) + Capitals(parts[1..]);
      hide Capitals, Capital;
      CapitalsAppend(parts[1..], p);
      Regroup(Capital(parts[0]), Capitals(parts[1..]), Capital(p));
    }
  }

  method CamelField(column: string) returns (field: string)
    ensures field == Camel(column)
  {
    hide Split, Capitals;
    var parts := Split(column);
    field := "";
    assert Capitals([]) == "" by { NoCapitalsLeft(); }
    for i := 0 to |parts|
      invariant i == 0 ==> field == ""
      invariant i > 0 ==> field == parts[0] + Capitals(parts[1..i])
    {
      if i == 0 {
        field := field + parts[i];
        assert parts[1..1] == [] && parts[0] + "" == parts[0];
      } else {
        CapitalsAppend(parts[1..i], parts[i]);
        assert parts[1..i] + [parts[i]] == parts[1..i + 1];
        Regroup(parts[0], Capitals(parts[1..i]), Capital(parts[i]));
        if parts[i] != "" {
          field := field + Capital(parts[i]);
        } else {
          assert field + Capital(parts[i]) == field;
        }
      }
    }
    assert parts[1..|parts|] == parts[1..];
  }

  lemma NoCapitalsLeft()
    ensures Capitals([]) == ""
  {
  }

  /** Reading a field name back as a column name. */
  function Snake(field: string): string {
    if field == "" then ""
    else SnakeChar(field[0]) + Snake(field[1..])
  }

  function SnakeChar(c: char): string { if IsUpper(c) then ['_', Lower(c)] else [c] }

  /** The field name of a column, character by character: an underscore only marks the next
      character to be raised. */
  function CamelFrom(s: string, raise: bool): string {
    if s == "" then ""
    else if s[0] == '_' then CamelFrom(s[1..], true)
    else [if raise then Upper(s[0]) else s[0]] + CamelFrom(s[1..], false)
  }

  lemma {:induction false} CamelByCharacter(s: string)
    ensures Camel(s) == CamelFrom(s, false) && Capitals(Split(s)) == CamelFrom(s, true)
  {
    if s == "" {
      assert [""][1..] == [];
    } else {
      var parts, rest := Split(s), Split(s[1..]);
      CamelByCharacter(s[1..]);
      assert Capitals(parts) == Capital(parts[0]) + Capitals(parts[1..]);
      assert Capitals(rest) == Capital(rest[0]) + Capitals(rest[1..]);
      hide Split, Capitals;
      if s[0] == '_' {
        assert parts == [""] + rest && parts[1..] == rest by { SplitHead(s); }
      } else {
        assert parts == [[s[0]] + rest[0]] + rest[1..] && parts[1..] == rest[1..] by { SplitHead(s); }
        assert Capital(parts[0]) == [Upper(s[0])] + rest[0];
        Regroup([s[0]], rest[0], Capitals(rest[1..]));
        Regroup([Upper(s[0])], rest[0], Capitals(rest[1..]));
      }
    }
  }

  lemma SplitHead(s: string)
    requires s != ""
    ensures Split(s) == if s[0] == '_' then [""] + Split(s[1..]) else [[s[0]] + Split(s[1..])[0]] + Split(s[1..])[1..]
  {
  }

  /** The column name that a field name is read back as, straight from the column: an underscore
      counts only before a small letter, a capital counts as underscore and small letter. */
  function Canonical(s: string, marked: bool): string {
    if s == "" then ""
    else if s[0] == '_' then Canonical(s[1..], true)
    else (if IsUpper(s[0]) || (marked && IsLower(s[0])) then ['_', Lower(s[0])] else [s[0]]) + Canonical(s[1..], false)
  }

  lemma {:induction false} SnakeOfCamelFrom(s: string, marked: bool)
    ensures Snake(CamelFrom(s, marked)) == Canonical(s, marked)
  {
    if s != "" {
      SnakeOfCamelFrom(s[1..], s[0] == '_');
      if s[0] != '_' {
        var c, rest := if marked then Upper(s[0]) else s[0], CamelFrom(s[1..], false);
        assert CamelFrom(s, marked) == [c] + rest;
        assert ([c] + rest)[0] == c && ([c] + rest)[1..] == rest;
        assert Snake([c] + rest) == SnakeChar(c) + Snake(rest);
        assert SnakeChar(c) == if IsUpper(s[0]) || (marked && IsLower(s[0])) then ['_', Lower(s[0])] else [s[0]];
      }
    }
  }

  lemma {:induction false} CamelHasNoUnderscore(s: string, raise: bool)
    ensures '_' !in CamelFrom(s, raise)
  {
    if s != "" { CamelHasNoUnderscore(s[1..], s[0] == '_'); }
  }

  /** Reading back loses nothing of a field name without underscores. */
  lemma {:induction false} SnakeInjective(a: string, b: string)
    requires '_' !in a && '_' !in b && Snake(a) == Snake(b)
    ensures a == b
  {
    if a == "" || b == "" {
      SnakeEmptyIff(a);
      SnakeEmptyIff(b);
    } else {
      assert Snake(a) == SnakeChar(a[0]) + Snake(a[1..]) && Snake(b) == SnakeChar(b[0]) + Snake(b[1..]);
      assert a[0] in a && b[0] in b;
      hide Snake;
      assert SnakeChar(a[0])[0] == (SnakeChar(a[0]) + Snake(a[1..]))[0];
      assert SnakeChar(b[0])[0] == (SnakeChar(b[0]) + Snake(b[1..]))[0];
      assert |SnakeChar(a[0])| == |SnakeChar(b[0])|;
      assert SnakeChar(a[0]) == (SnakeChar(a[0]) + Snake(a[1..]))[..|SnakeChar(a[0])|];
      assert SnakeChar(b[0]) == (SnakeChar(b[0]) + Snake(b[1..]))[..|SnakeChar(b[0])|];
      assert Snake(a[1..]) == (SnakeChar(a[0]) + Snake(a[1..]))[|SnakeChar(a[0])|..];
      assert Snake(b[1..]) == (SnakeChar(b[0]) + Snake(b[1..]))[|SnakeChar(b[0])|..];
      SnakeInjective(a[1..], b[1..]);
      assert a == [a[0]] + a[1..] && b == [b[0]] + b[1..];
    }
  }

  lemma SnakeEmptyIff(a: string)
    ensures Snake(a) == "" <==> a == ""
  {
  }

  /** A field name is read back as the column's canonical name, and two columns share a field
      name exactly when they have the same canonical name. */
  lemma SharedFieldIff(a: string, b: string)
    ensures Snake(Camel(a)) == Canonical(a, false)
    ensures Camel(a) == Camel(b) <==> Canonical(a, false) == Canonical(b, false)
  {
    hide Camel, CamelFrom, Snake, Canonical;
    CamelByCharacter(a);
    CamelByCharacter(b);
    SnakeOfCamelFrom(a, false);
    SnakeOfCamelFrom(b, false);
    CamelHasNoUnderscore(a, false);
    CamelHasNoUnderscore(b, false);
    if Canonical(a, false) == Canonical(b, false) { SnakeInjective(CamelFrom(a, false), CamelFrom(b, false)); }
  }

  predicate WellNamedAt(s: string, i: nat)
    requires i < |s|
  {
    !('A' <= s[i] <= 'Z') && (s[i] == '_' ==> i + 1 < |s| && 'a' <= s[i + 1] <= 'z')
  }

  /** No capitals, and every underscore stands before a small letter. */
  predicate WellNamed(s: string) { forall i | 0 <= i < |s| :: WellNamedAt(s, i) }

  predicate NoCapitals(s: string) { forall i | 0 <= i < |s| :: !IsUpper(s[i]) }

  lemma {:induction false} CanonicalHasNoCapitals(s: string, marked: bool)
    ensures NoCapitals(Canonical(s, marked))
  {
    if s != "" { CanonicalHasNoCapitals(s[1..], s[0] == '_'); }
  }

  lemma WellNamedTail(s: string)
    requires s != "" && NoCapitals(s)
    ensures WellNamed(s) <==> WellNamed(s[1..]) && (s[0] == '_' ==> |s| > 1 && IsLower(s[1]))
  {
    var rest := s[1..];
    assert WellNamedAt(s, 0) <==> (s[0] == '_' ==> |s| > 1 && IsLower(s[1]));
    if WellNamed(s) {
      forall i | 0 <= i < |rest| ensures WellNamedAt(rest, i) { assert WellNamedAt(s, i + 1); }
    }
    if WellNamed(rest) && WellNamedAt(s, 0) {
      forall i | 0 <= i < |s| ensures WellNamedAt(s, i) {
        if i > 0 { assert WellNamedAt(rest, i - 1); }
      }
    }
  }

  lemma {:induction false} CanonicalIsSelfIff(s: string)
    requires NoCapitals(s)
    ensures |Canonical(s, false)| <= |s| && |Canonical(s, true)| <= |s| + 1
    ensures Canonical(s, false) == s <==> WellNamed(s)
    ensures Canonical(s, true) == "_" + s <==> s != "" && IsLower(s[0]) && WellNamed(s)
  {
    if s != "" {
      var rest := s[1..];
      assert s == [s[0]] + rest;
      CanonicalIsSelfIff(rest);
      WellNamedTail(s);
      hide WellNamed, NoCapitals;
      var tail := Canonical(rest, false);
      if s[0] != '_' {
        assert Canonical(s, false) == [s[0]] + tail;
        assert ([s[0]] + tail)[1..] == tail && s[1..] == rest;
        assert Canonical(s, true) == (if IsLower(s[0]) then ['_', s[0]] else [s[0]]) + tail;
        assert (['_', s[0]] + tail)[2..] == tail && ("_" + s)[2..] == rest;
        assert IsLower(s[0]) && tail == rest ==> ['_', s[0]] + tail == "_" + s;
      } else {
        assert Canonical(s, false) == Canonical(rest, true) && Canonical(s, true) == Canonical(rest, true);
        assert s == "_" + rest;
      }
    }
  }

  /** So the field name gives the column back exactly when the column is well named. */
  lemma ReadsBackIff(column: string)
    ensures Snake(Camel(column)) == column <==> WellNamed(column)
  {
    SharedFieldIff(column, column);
    CanonicalHasNoCapitals(column, false);
    assert WellNamed(column) ==> NoCapitals(column) by {
      if WellNamed(column) {
        forall i | 0 <= i < |column| ensures !IsUpper(column[i]) { assert WellNamedAt(column, i); }
      }
    }
    if NoCapitals(column) { CanonicalIsSelfIff(column); }
  }

  // --- Differences ---------------------------------------------------------------------------

  datatype Value = Null | Json(text: string) | Crew(keys: seq<CrewKey>)

  /** A stored state of a flight: its columns and its crew. */
  datatype State = State(columns: map<string, Value>, crew: seq<CrewKey>)

  datatype Change = Change(field: string, before: Value, after: Value)

  const CREW_FIELD := "crewMembers"

  predicate Excluded(column: string) { column in ["id", "user_id", "created_at", "updated_at", "signature_id"] }

  /** An absent column reads as null. */
  function Read(s: State, column: string): Value { if column in s.columns then s.columns[column] else Null }

  ghost predicate SameReported(a: State, b: State) {
    && (forall k | !Excluded(k) :: Read(a, k) == Read(b, k))
    && multiset(a.crew) == multiset(b.crew)
  }

  function Name(c: string): string { c }

  /** The reported columns of either state, in order. */
  ghost predicate NamesOf(a: State, b: State, names: seq<string>) {
    Sorted(Name, names) && forall k :: k in names <==> (k in a.columns || k in b.columns) && !Excluded(k)
  }

  lemma NamesUnique(a: State, b: State, n: seq<string>, n': seq<string>)
    requires NamesOf(a, b, n) && NamesOf(a, b, n')
    ensures n == n'
  {
    SortedUnique(Name, n, n');
  }

  function ColumnChanges(names: seq<string>, a: State, b: State): seq<Change> {
    if names == [] then []
    else
      ColumnChanges(names[..|names| - 1], a, b)
      + var k := names[|names| - 1]; if Read(a, k) == Read(b, k) then [] else [Change(Camel(k), Read(a, k), Read(b, k))]
  }

  function CrewChange(a: State, b: State): seq<Change> {
    if SortedCrew(a.crew) == SortedCrew(b.crew) then [] else [Change(CREW_FIELD, Crew(SortedCrew(a.crew)), Crew(SortedCrew(b.crew)))]
  }

  /** The changes, given the column names. */
  function Changes(names: seq<string>, a: State, b: State): seq<Change> { ColumnChanges(names, a, b) + CrewChange(a, b) }

  /** So the changes do not depend on the order in which the columns were visited. */
  lemma ChangesUnique(a: State, b: State, n: seq<string>, n': seq<string>)
    requires NamesOf(a, b, n) && NamesOf(a, b, n')
    ensures Changes(n, a, b) == Changes(n', a, b)
  {
    NamesUnique(a, b, n, n');
  }

  method SortedNames(a: State, b: State) returns (names: seq<string>)
    ensures NamesOf(a, b, names)
  {
    var todo := a.columns.Keys + b.columns.Keys;
    var found: seq<string> := [];
    ghost var all := todo;
    while todo != {}
      invariant todo <= all && DistinctKeys(Name, found)
      invariant forall k :: k in found <==> k in all && k !in todo && !Excluded(k)
    {
      var k :| k in todo;
      todo := todo - {k};
      if !Excluded(k) { found := found + [k]; }
    }
    names := Sort(ByKey(Name), found);
    SortSorts(Name, found);
    SameElements(names, found);
  }

  /** DiffFlightStates on decoded states. */
  method DiffFlightStates(a: State, b: State) returns (changes: seq<Change>, ghost names: seq<string>)
    ensures NamesOf(a, b, names) && changes == Changes(names, a, b)
    ensures forall other | NamesOf(a, b, other) :: changes == Changes(other, a, b)
  {
    var sorted := SortedNames(a, b);
    names := sorted;
    changes := [];
    for i := 0 to |sorted|
      invariant changes == ColumnChanges(sorted[..i], a, b)
    {
      var k := sorted[i];
      assert sorted[..i + 1][..i] == sorted[..i];
      if Read(a, k) != Read(b, k) {
        var field := CamelField(k);
        changes := changes + [Change(field, Read(a, k), Read(b, k))];
      }
    }
    assert sorted[..|sorted|] == sorted;
    forall other | NamesOf(a, b, other) ensures Changes(other, a, b) == Changes(names, a, b) { ChangesUnique(a, b, other, names); }
    if SortedCrew(a.crew) != SortedCrew(b.crew) {
      changes := changes + [Change(CREW_FIELD, Crew(SortedCrew(a.crew)), Crew(SortedCrew(b.crew)))];
    }
  }

  lemma {:induction false} ColumnChangesEmptyIff(names: seq<string>, a: State, b: State)
    ensures ColumnChanges(names, a, b) == [] <==> forall k | k in names :: Read(a, k) == Read(b, k)
  {
    if names != [] {
      ColumnChangesEmptyIff(names[..|names| - 1], a, b);
      assert names == names[..|names| - 1] + [names[|names| - 1]];
    }
  }

  /** The list of changes is empty exactly when nothing reported differs. */
  lemma NoChangesIff(a: State, b: State, names: seq<string>)
    requires NamesOf(a, b, names)
    ensures Changes(names, a, b) == [] <==> SameReported(a, b)
  {
    ColumnChangesEmptyIff(names, a, b);
    SameCrewIff(a.crew, b.crew);
    forall k | !Excluded(k) && k !in names ensures Read(a, k) == Read(b, k) {
    }
  }

  // --- Applying changes ----------------------------------------------------------------------------

  function Apply(c: Change, s: State): State {
    if c.field == CREW_FIELD then (if c.after.Crew? then s.(crew := c.after.keys) else s)
    else s.(columns := s.columns[Snake(c.field) := c.after])
  }

  function ApplyAll(cs: seq<Change>, s: State): State {
    if cs == [] then s else Apply(cs[|cs| - 1], ApplyAll(cs[..|cs| - 1], s))
  }

  lemma {:induction false} ApplyAppend(cs: seq<Change>, ds: seq<Change>, s: State)
    ensures ApplyAll(cs + ds, s) == ApplyAll(ds, ApplyAll(cs, s))
  {
    if ds == [] {
      assert cs + ds == cs;
    } else {
      ApplyAppend(cs, ds[..|ds| - 1], s);
      assert (cs + ds)[..|cs + ds| - 1] == cs + ds[..|ds| - 1];
    }
  }

  /** Columns whose field name can be read back, and none that reads as the crew. */
  predicate Readable(column: string) { WellNamed(column) && Camel(column) != CREW_FIELD }

  lemma ApplyOne(k: string, before: Value, after: Value, s: State)
    requires Readable(k)
    ensures Apply(Change(Camel(k), before, after), s) == s.(columns := s.columns[k := after])
  {
    ReadsBackIff(k);
  }

  /** Applying the column changes sets exactly the columns that differ. */
  lemma {:induction false} ApplyColumns(names: seq<string>, a: State, b: State, s: State, k: string)
    requires forall n | n in names :: Readable(n)
    ensures var r := ApplyAll(ColumnChanges(names, a, b), s);
            && r.crew == s.crew
            && Read(r, k) == if k in names && Read(a, k) != Read(b, k) then Read(b, k) else Read(s, k)
  {
    ColumnChangesLast(names, a, b);
    hide Readable, Camel, Snake, ColumnChanges, Apply;
    if names == [] {
      assert ApplyAll([], s) == s;
    } else {
      var init, last := names[..|names| - 1], names[|names| - 1];
      assert names == init + [last];
      ApplyColumns(init, a, b, s, k);
      hide ApplyAll;
      if Read(a, last) != Read(b, last) {
        var c := Change(Camel(last), Read(a, last), Read(b, last));
        ApplyAppend(ColumnChanges(init, a, b), [c], s);
        ApplyOneOnly(c, ApplyAll(ColumnChanges(init, a, b), s));
        ApplyOne(last, Read(a, last), Read(b, last), ApplyAll(ColumnChanges(init, a, b), s));
      } else {
        assert ColumnChanges(names, a, b) == ColumnChanges(init, a, b);
      }
    }
  }

  lemma ColumnChangesLast(names: seq<string>, a: State, b: State)
    ensures names == [] ==> ColumnChanges(names, a, b) == []
    ensures names != [] ==>
              var k := names[|names| - 1];
              ColumnChanges(names, a, b)
              == ColumnChanges(names[..|names| - 1], a, b) + if Read(a, k) == Read(b, k) then [] else [Change(Camel(k), Read(a, k), Read(b, k))]
  {
  }

  lemma ApplyOneOnly(c: Change, s: State)
    ensures ApplyAll([c], s) == Apply(c, s)
  {
    assert [c][..0] == [];
  }

  /** Applying the difference of two states to anything that agrees with the first gives
      something that agrees with the second. */
  lemma ChangesRebuild(a: State, b: State, names: seq<string>, s: State)
    requires NamesOf(a, b, names) && (forall n | n in names :: Readable(n)) && SameReported(s, a)
    ensures SameReported(ApplyAll(Changes(names, a, b), s), b)
  {
    hide Readable, ColumnChanges, ApplyAll;
    ApplyAppend(ColumnChanges(names, a, b), CrewChange(a, b), s);
    var r := ApplyAll(ColumnChanges(names, a, b), s);
    var last := ApplyAll(CrewChange(a, b), r);
    SameCrewIff(a.crew, b.crew);
    ApplyColumns(names, a, b, s, "");
    CrewChangeOnly(a, b, r);
    forall k | !Excluded(k) ensures Read(last, k) == Read(b, k) {
      ApplyColumns(names, a, b, s, k);
    }
  }

  lemma CrewChangeOnly(a: State, b: State, r: State)
    ensures ApplyAll(CrewChange(a, b), r).columns == r.columns
    ensures ApplyAll(CrewChange(a, b), r).crew == if SortedCrew(a.crew) == SortedCrew(b.crew) then r.crew else SortedCrew(b.crew)
  {
    if SortedCrew(a.crew) != SortedCrew(b.crew) {
      ApplyOneOnly(CrewChange(a, b)[0], r);
    }
  }

  // --- Undoing changes ---------------------------------------------------------------------------------

  /** The changes read the other way round. */
  function Undone(cs: seq<Change>): seq<Change> {
    if cs == [] then [] else Undone(cs[..|cs| - 1]) + var c := cs[|cs| - 1]; [Change(c.field, c.after, c.before)]
  }

  lemma {:induction false} UndoneAppend(cs: seq<Change>, ds: seq<Change>)
    ensures Undone(cs + ds) == Undone(cs) + Undone(ds)
  {
    if ds == [] {
      assert cs + ds == cs;
    } else {
      var init, c := ds[..|ds| - 1], ds[|ds| - 1];
      UndoneAppend(cs, init);
      assert (cs + ds)[..|cs + ds| - 1] == cs + init;
      Regroup(Undone(cs), Undone(init), [Change(c.field, c.after, c.before)]);
    }
  }

  lemma UndoneOne(c: Change)
    ensures Undone([c]) == [Change(c.field, c.after, c.before)]
  {
    assert [c][..0] == [];
  }

  lemma {:induction false} UndoneColumns(names: seq<string>, a: State, b: State)
    ensures Undone(ColumnChanges(names, a, b)) == ColumnChanges(names, b, a)
  {
    hide Camel, Undone, ColumnChanges;
    ColumnChangesLast(names, a, b);
    ColumnChangesLast(names, b, a);
    UndoneNothing();
    if names != [] {
      var init, k := names[..|names| - 1], names[|names| - 1];
      UndoneColumns(init, a, b);
      var c := Change(Camel(k), Read(a, k), Read(b, k));
      var last := if Read(a, k) == Read(b, k) then [] else [c];
      UndoneAppend(ColumnChanges(init, a, b), last);
      UndoneOne(c);
    }
  }

  lemma UndoneNothing()
    ensures Undone([]) == []
  {
  }

  /** The change list is symmetric: read the other way round it is that of the two states exchanged. */
  lemma UndoneChanges(names: seq<string>, a: State, b: State)
    ensures Undone(Changes(names, a, b)) == Changes(names, b, a)
  {
    hide Undone, ColumnChanges;
    UndoneColumns(names, a, b);
    UndoneAppend(ColumnChanges(names, a, b), CrewChange(a, b));
    UndoneNothing();
    if CrewChange(a, b) != [] { UndoneOne(CrewChange(a, b)[0]); }
  }

  /** So the changes carry what was there before: undoing them takes whatever agrees with the second
      state back to the first. */
  lemma ChangesUndo(a: State, b: State, names: seq<string>, s: State)
    requires NamesOf(a, b, names) && (forall n | n in names :: Readable(n)) && SameReported(s, b)
    ensures SameReported(ApplyAll(Undone(Changes(names, a, b)), s), a)
  {
    hide Readable, Changes, ApplyAll, Undone, SameReported;
    UndoneChanges(names, a, b);
    ChangesRebuild(b, a, names, s);
  }

  // --- The chain of revisions --------------------------------------------------------------------------

  datatype Kind = Update | Delete

  datatype Revision = Revision(kind: Kind, state: State)

  /** The state a revision is compared with: the next revision's, or the present one. */
  function NextState(revs: seq<Revision>, current: Option<State>, i: nat): Option<State>
    requires i < |revs|
  {
    if i + 1 < |revs| then Some(revs[i + 1].state) else current
  }

  /** The change list shown for a revision. */
  ghost predicate ViewOf(revs: seq<Revision>, current: Option<State>, i: nat, changes: seq<Change>)
    requires i < |revs|
  {
    var next := NextState(revs, current, i);
    if revs[i].kind.Delete? || next.None? then changes == []
    else exists names :: NamesOf(revs[i].state, next.value, names) && changes == Changes(names, revs[i].state, next.value)
  }

  method RevisionViews(revs: seq<Revision>, current: Option<State>) returns (views: seq<seq<Change>>)
    ensures |views| == |revs|
    ensures forall i | 0 <= i < |revs| :: ViewOf(revs, current, i, views[i])
  {
    hide NamesOf, Changes;
    views := [];
    for i := 0 to |revs|
      invariant |views| == i
      invariant forall k | 0 <= k < i :: ViewOf(revs, current, k, views[k])
    {
      var changes: seq<Change> := [];
      if !revs[i].kind.Delete? && (i + 1 < |revs| || current.Some?) {
        var next := if i + 1 < |revs| then revs[i + 1].state else current.value;
        ghost var names;
        changes, names := DiffFlightStates(revs[i].state, next);
      }
      views := views + [changes];
    }
  }

  ghost predicate AllReadable(s: State) { forall k | k in s.columns && !Excluded(k) :: Readable(k) }

  /** The state after applying the first `n` change lists. */
  function Replay(views: seq<seq<Change>>, s: State, n: nat): State
    requires n <= |views|
  {
    if n == 0 then s else ApplyAll(views[n - 1], Replay(views, s, n - 1))
  }

  /** How far the chain leads: to the present state, or for a deleted flight to the snapshot
      of its last record, which is the void record. */
  function End(revs: seq<Revision>, current: Option<State>): nat
    requires revs != []
  {
    if current.Some? then |revs| else |revs| - 1
  }

  /** The state before revision `n`, or the present one after the last. */
  function StateAt(revs: seq<Revision>, current: Option<State>, n: nat): State
    requires revs != [] && n <= End(revs, current)
  {
    if n < |revs| then revs[n].state else current.value
  }

  /** A chain of revisions with the change lists shown for it, all columns readable. */
  ghost predicate Chain(revs: seq<Revision>, current: Option<State>, views: seq<seq<Change>>) {
    && 0 < |revs| == |views|
    && (forall i | 0 <= i < |revs| :: ViewOf(revs, current, i, views[i]))
    && (forall i | 0 <= i < |revs| :: AllReadable(revs[i].state))
    && (current.Some? ==> AllReadable(current.value))
  }

  /** Across its void records the chain has nothing to report. */
  ghost predicate QuietVoids(revs: seq<Revision>, current: Option<State>, n: nat)
    requires revs != [] && n <= End(revs, current)
  {
    forall i | 0 <= i < n && revs[i].kind.Delete? :: SameReported(revs[i].state, StateAt(revs, current, i + 1))
  }

  /** One change list takes a replay from one snapshot to the next, unless it belongs to a void
      record: then it takes it nowhere. */
  lemma ReplayStep(revs: seq<Revision>, current: Option<State>, views: seq<seq<Change>>, n: nat)
    requires Chain(revs, current, views) && 0 < n <= End(revs, current)
    requires SameReported(Replay(views, revs[0].state, n - 1), StateAt(revs, current, n - 1))
    ensures SameReported(Replay(views, revs[0].state, n), StateAt(revs, current, n))
       <==> (revs[n - 1].kind.Delete? ==> SameReported(revs[n - 1].state, StateAt(revs, current, n)))
  {
    hide SameReported, NamesOf, Readable;
    var a, b := revs[n - 1].state, StateAt(revs, current, n);
    var s := Replay(views, revs[0].state, n - 1);
    assert ViewOf(revs, current, n - 1, views[n - 1]);
    if revs[n - 1].kind.Delete? {
      assert Replay(views, revs[0].state, n) == s;
      SameReportedEquivalence(s, a, b);
    } else {
      var names :| NamesOf(a, b, names) && views[n - 1] == Changes(names, a, b);
      NamesReadable(a, b, names);
      ChangesRebuild(a, b, names, s);
    }
  }

  /** The replay leads through the first `n` states. */
  ghost predicate Leads(revs: seq<Revision>, current: Option<State>, views: seq<seq<Change>>, n: nat)
    requires 0 < |revs| == |views| && n <= End(revs, current)
  {
    forall m | 0 <= m <= n :: SameReported(Replay(views, revs[0].state, m), StateAt(revs, current, m))
  }

  lemma LeadsStep(revs: seq<Revision>, current: Option<State>, views: seq<seq<Change>>, n: nat)
    requires 0 < |revs| == |views| && 0 < n <= End(revs, current)
    ensures Leads(revs, current, views, n)
       <==> Leads(revs, current, views, n - 1) && SameReported(Replay(views, revs[0].state, n), StateAt(revs, current, n))
    ensures Leads(revs, current, views, n - 1) ==> SameReported(Replay(views, revs[0].state, n - 1), StateAt(revs, current, n - 1))
    ensures QuietVoids(revs, current, n)
       <==> QuietVoids(revs, current, n - 1)
            && (revs[n - 1].kind.Delete? ==> SameReported(revs[n - 1].state, StateAt(revs, current, n)))
  {
    hide SameReported, Replay, StateAt;
  }

  lemma LeadsStarts(revs: seq<Revision>, current: Option<State>, views: seq<seq<Change>>)
    requires 0 < |revs| == |views|
    ensures Leads(revs, current, views, 0) && QuietVoids(revs, current, 0)
  {
  }

  /** Applying a flight's change lists in order to its first snapshot leads through the first
      `n` states exactly when no void record among them lies between two different ones. */
  lemma {:induction false} ReplayLeadsIff(revs: seq<Revision>, current: Option<State>, views: seq<seq<Change>>, n: nat)
    requires Chain(revs, current, views) && n <= End(revs, current)
    ensures Leads(revs, current, views, n) <==> QuietVoids(revs, current, n)
  {
    hide SameReported, Replay, StateAt, Leads, QuietVoids;
    if n == 0 {
      LeadsStarts(revs, current, views);
    } else {
      ReplayLeadsIff(revs, current, views, n - 1);
      LeadsStep(revs, current, views, n);
      if Leads(revs, current, views, n - 1) { ReplayStep(revs, current, views, n); }
    }
  }

  /** So with nothing but edits before the end, the replay reaches the present state, and for a
      deleted flight the snapshot on its void record. */
  lemma ReplayReachesEnd(revs: seq<Revision>, current: Option<State>, views: seq<seq<Change>>)
    requires Chain(revs, current, views) && forall i | 0 <= i < End(revs, current) :: revs[i].kind.Update?
    ensures SameReported(Replay(views, revs[0].state, End(revs, current)), StateAt(revs, current, End(revs, current)))
    ensures current.None? ==> StateAt(revs, current, End(revs, current)) == revs[|revs| - 1].state
  {
    ReplayLeadsIff(revs, current, views, End(revs, current));
  }

  lemma SameReportedEquivalence(s: State, a: State, b: State)
    requires SameReported(s, a)
    ensures SameReported(s, b) <==> SameReported(a, b)
  {
    if SameReported(s, b) {
      forall k | !Excluded(k) ensures Read(a, k) == Read(b, k) {
        assert Read(s, k) == Read(a, k) && Read(s, k) == Read(b, k);
      }
    }
  }

  lemma NamesReadable(a: State, b: State, names: seq<string>)
    requires NamesOf(a, b, names) && AllReadable(a) && AllReadable(b)
    ensures forall k | k in names :: Readable(k)
  {
  }
}
