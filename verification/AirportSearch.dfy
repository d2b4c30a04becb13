// Lookups and searches on a snapshot, and the rule by which a reload replaces it.

module AirportSearch {

  import opened Common
  import opened AirportMerge
  import opened AirportGrid
  import opened Ordering
  import opened AirportIndex

  // --- What a search should return -------------------------------------------------------

  function Cut<T>(s: seq<T>, limit: nat): seq<T> { if |s| <= limit then s else s[..limit] }

  /** The elements that pass, in order. */
  function Select(s: seq<Airport>, f: Airport -> bool): seq<Airport> {
    if s == [] then []
    else Select(s[..|s| - 1], f) + if f(s[|s| - 1]) then [s[|s| - 1]] else []
  }

  lemma {:induction false} SelectMembers(s: seq<Airport>, f: Airport -> bool)
    ensures forall a :: a in Select(s, f) <==> a in s && f(a)
  {
    if s != [] {
      SelectMembers(s[..|s| - 1], f);
      assert s == s[..|s| - 1] + [s[|s| - 1]];
    }
  }

  function PrefixHits(list: seq<Airport>, prefix: string): seq<Airport> { Select(list, (a: Airport) => prefix <= a.icao) }

  predicate IsLocalHit(list: seq<Airport>, e: LocalEntry, prefix: string, seen: set<string>) {
    0 <= e.idx < |list| && prefix <= e.code && list[e.idx].icao !in seen
  }

  /** The airports behind the local codes with the prefix, in code order. */
  function LocalHits(list: seq<Airport>, locals: seq<LocalEntry>, prefix: string, seen: set<string>): seq<Airport> {
    if locals == [] then []
    else
      var last := locals[|locals| - 1];
      LocalHits(list, locals[..|locals| - 1], prefix, seen) + if IsLocalHit(list, last, prefix, seen) then [list[last.idx]] else []
  }

  lemma {:induction false} LocalMembers(list: seq<Airport>, locals: seq<LocalEntry>, prefix: string, seen: set<string>, a: Airport)
    ensures a in LocalHits(list, locals, prefix, seen)
       <==> exists e :: e in locals && IsLocalHit(list, e, prefix, seen) && list[e.idx] == a
  {
    if locals != [] {
      var init, last := locals[..|locals| - 1], locals[|locals| - 1];
      LocalMembers(list, init, prefix, seen, a);
      assert locals == init + [last];
    }
  }

  /** The query starts at a word of the folded name. */
  predicate NameMatches(folded: string, q: string) {
    q <= folded || exists i | 0 <= i <= |folded| :: ([' '] + q) <= folded[i..]
  }

  /** The query stands in the name from position `i`, at the start or behind a space. */
  predicate WordFrom(name: string, q: string, i: nat) {
    i + |q| <= |name| && name[i..i + |q|] == q && (i == 0 || name[i - 1] == ' ')
  }

  ghost predicate StartsAWord(name: string, q: string) { exists i :: WordFrom(name, q, i) }

  lemma BehindSpace(name: string, q: string, i: nat)
    requires i <= |name|
    ensures [' '] + q <= name[i..] <==> i < |name| && name[i] == ' ' && WordFrom(name, q, i + 1)
  {
    var r, w := name[i..], [' '] + q;
    if i + 1 + |q| <= |name| {
      assert r[..1 + |q|] == [name[i]] + name[i + 1..i + 1 + |q|];
      assert w[1..] == q && r[..1 + |q|][1..] == name[i + 1..i + 1 + |q|];
    }
  }

  lemma NameMatchesIff(name: string, q: string)
    ensures NameMatches(name, q) <==> StartsAWord(name, q)
  {
    hide WordFrom;
    AtTheStart(name, q);
    forall i: nat | i <= |name| && [' '] + q <= name[i..] ensures WordFrom(name, q, i + 1) { BehindSpace(name, q, i); }
    forall i: nat | WordFrom(name, q, i) ensures NameMatches(name, q) {
      if i > 0 {
        WordBehindSpace(name, q, i);
        BehindSpace(name, q, i - 1);
      }
    }
  }

  lemma AtTheStart(name: string, q: string)
    ensures q <= name <==> WordFrom(name, q, 0)
  {
  }

  lemma WordBehindSpace(name: string, q: string, i: nat)
    requires WordFrom(name, q, i) && i > 0
    ensures i - 1 < |name| && name[i - 1] == ' '
  {
  }

  function NameHits(t: Texts, list: seq<Airport>, q: string, seen: set<string>): seq<Airport> {
    Select(list, (a: Airport) => a.icao !in seen && NameMatches(t.fold(a.name), q))
  }

  function Icaos(s: seq<Airport>): set<string> { set a | a in s :: a.icao }

  /** The three stages one after the other, each leaving out what came before. */
  function CodeHits(list: seq<Airport>, locals: seq<LocalEntry>, prefix: string): seq<Airport> {
    PrefixHits(list, prefix) + LocalHits(list, locals, prefix, Icaos(PrefixHits(list, prefix)))
  }

  function AllHits(t: Texts, list: seq<Airport>, locals: seq<LocalEntry>, prefix: string, q: string): seq<Airport> {
    var codes := CodeHits(list, locals, prefix);
    codes + if q == "" then [] else NameHits(t, list, q, Icaos(codes))
  }

  function SearchResult(t: Texts, list: seq<Airport>, locals: seq<LocalEntry>, query: string, limit: int): seq<Airport> {
    if t.trim(query) == "" || limit <= 0 then []
    else Cut(AllHits(t, list, locals, t.upper(t.trim(query)), t.fold(query)), limit)
  }

  // --- Properties of that result ---------------------------------------------------------------

  ghost predicate NoRepeats(s: seq<Airport>) {
    forall i, j | 0 <= i < j < |s| :: s[i].icao != s[j].icao
  }

  lemma {:induction false} SelectNoRepeats(s: seq<Airport>, f: Airport -> bool)
    requires NoRepeats(s)
    ensures NoRepeats(Select(s, f))
  {
    if s != [] {
      var init, last := s[..|s| - 1], s[|s| - 1];
      SelectNoRepeats(init, f);
      var r := Select(init, f);
      SelectMembers(init, f);
      forall i | 0 <= i < |r| ensures r[i].icao != last.icao {
        assert r[i] in init;
      }
    }
  }

  lemma SortedNoRepeats(list: seq<Airport>)
    requires Sorted(Icao, list)
    ensures NoRepeats(list)
  {
    forall i, j | 0 <= i < j < |list| ensures list[i].icao != list[j].icao {
      assert Less(Icao(list[i]), Icao(list[j]));
      LessTotal(list[i].icao, list[j].icao);
    }
  }

  /** Entries name airports by their own local code, so no airport has two. */
  ghost predicate EntriesFit(list: seq<Airport>, locals: seq<LocalEntry>) {
    && (forall e | e in locals :: 0 <= e.idx < |list| && list[e.idx].localCode == e.code)
    && forall i, j | 0 <= i < j < |locals| :: locals[i].code != locals[j].code
  }

  lemma {:induction false} LocalNoRepeats(list: seq<Airport>, locals: seq<LocalEntry>, prefix: string, seen: set<string>)
    requires NoRepeats(list) && EntriesFit(list, locals)
    ensures NoRepeats(LocalHits(list, locals, prefix, seen))
    ensures forall a | a in LocalHits(list, locals, prefix, seen) :: a.icao !in seen
  {
    if locals != [] {
      var init, last := locals[..|locals| - 1], locals[|locals| - 1];
      LocalNoRepeats(list, init, prefix, seen);
      var r := LocalHits(list, init, prefix, seen);
      forall i | 0 <= i < |r| ensures r[i].icao != list[last.idx].icao {
        assert r[i] in r;
        LocalMembers(list, init, prefix, seen, r[i]);
        var e :| e in init && IsLocalHit(list, e, prefix, seen) && list[e.idx] == r[i];
        assert e.code != last.code;
      }
    }
  }

  lemma AppendNoRepeats(a: seq<Airport>, b: seq<Airport>)
    requires NoRepeats(a) && NoRepeats(b) && forall x | x in b :: x.icao !in Icaos(a)
    ensures NoRepeats(a + b)
  {
    var s := a + b;
    forall i, j | 0 <= i < j < |s| ensures s[i].icao != s[j].icao {
      if i < |a| <= j {
        assert s[i] in a && s[j] in b;
      }
    }
  }

  /** No airport is listed twice. */
  lemma SearchNoRepeats(t: Texts, list: seq<Airport>, locals: seq<LocalEntry>, query: string, limit: int)
    requires Sorted(Icao, list) && EntriesFit(list, locals)
    ensures NoRepeats(SearchResult(t, list, locals, query, limit))
  {
    SortedNoRepeats(list);
    var prefix, q := t.upper(t.trim(query)), t.fold(query);
    var p := PrefixHits(list, prefix);
    SelectNoRepeats(list, (a: Airport) => prefix <= a.icao);
    LocalNoRepeats(list, locals, prefix, Icaos(p));
    AppendNoRepeats(p, LocalHits(list, locals, prefix, Icaos(p)));
    var codes := CodeHits(list, locals, prefix);
    var names := NameHits(t, list, q, Icaos(codes));
    var named := (a: Airport) => a.icao !in Icaos(codes) && NameMatches(t.fold(a.name), q);
    SelectNoRepeats(list, named);
    SelectMembers(list, named);
    AppendNoRepeats(codes, names);
  }

  /** The code, or an unambiguous local code, starts with the prefix. */
  ghost predicate CodeWanted(list: seq<Airport>, locals: seq<LocalEntry>, prefix: string, a: Airport) {
    || prefix <= a.icao
    || exists e :: e in locals && prefix <= e.code && 0 <= e.idx < |list| && list[e.idx] == a
  }

  /** In a list without repeats, a code seen among some of its airports is that airport's. */
  lemma SeenMeansListed(list: seq<Airport>, hits: seq<Airport>, a: Airport)
    requires NoRepeats(list) && a in list && (forall h | h in hits :: h in list) && a.icao in Icaos(hits)
    ensures a in hits
  {
    var h :| h in hits && h.icao == a.icao;
    var i :| 0 <= i < |list| && list[i] == a;
    var j :| 0 <= j < |list| && list[j] == h;
    assert i == j;
  }

  lemma CodesAreComplete(list: seq<Airport>, locals: seq<LocalEntry>, prefix: string, a: Airport)
    requires NoRepeats(list)
    ensures a in CodeHits(list, locals, prefix) <==> a in list && CodeWanted(list, locals, prefix, a)
  {
    var p := PrefixHits(list, prefix);
    var l := LocalHits(list, locals, prefix, Icaos(p));
    SelectMembers(list, (x: Airport) => prefix <= x.icao);
    LocalMembers(list, locals, prefix, Icaos(p), a);
    if a in l {
      var e :| e in locals && IsLocalHit(list, e, prefix, Icaos(p)) && list[e.idx] == a;
    }
    if a in list && CodeWanted(list, locals, prefix, a) && a !in p {
      if a.icao in Icaos(p) { SeenMeansListed(list, p, a); }
      var e :| e in locals && prefix <= e.code && 0 <= e.idx < |list| && list[e.idx] == a;
      assert IsLocalHit(list, e, prefix, Icaos(p));
    }
  }

  /** Before the cut a search lists exactly the airports whose code, unambiguous local
      code or name word starts with the query. */
  lemma SearchIsComplete(t: Texts, list: seq<Airport>, locals: seq<LocalEntry>, prefix: string, q: string, a: Airport)
    requires Sorted(Icao, list)
    ensures a in AllHits(t, list, locals, prefix, q)
       <==> a in list && (CodeWanted(list, locals, prefix, a) || (q != "" && StartsAWord(t.fold(a.name), q)))
  {
    hide CodeWanted, NameMatches, StartsAWord, CodeHits;
    NameMatchesIff(t.fold(a.name), q);
    SortedNoRepeats(list);
    var codes := CodeHits(list, locals, prefix);
    forall x ensures x in codes <==> x in list && CodeWanted(list, locals, prefix, x) {
      CodesAreComplete(list, locals, prefix, x);
    }
    SelectMembers(list, (x: Airport) => x.icao !in Icaos(codes) && NameMatches(t.fold(x.name), q));
    if a in list && a.icao in Icaos(codes) { SeenMeansListed(list, codes, a); }
  }

  /** What a search answers: nothing to a blank query or without room; otherwise only airports that are wanted,
      no more than there is room for, and all of them when the room suffices. */
  lemma SearchAnswers(t: Texts, list: seq<Airport>, locals: seq<LocalEntry>, query: string, limit: int, a: Airport)
    requires Sorted(Icao, list)
    ensures var r, q := SearchResult(t, list, locals, query, limit), t.fold(query);
            var wanted := a in list && (CodeWanted(list, locals, t.upper(t.trim(query)), a) || (q != "" && StartsAWord(t.fold(a.name), q)));
            && (t.trim(query) == "" || limit <= 0 ==> r == [])
            && (t.trim(query) != "" && limit > 0 ==> |r| <= limit && (a in r ==> wanted) && (|r| < limit && wanted ==> a in r))
  {
    hide AllHits, CodeWanted, StartsAWord;
    SearchIsComplete(t, list, locals, t.upper(t.trim(query)), t.fold(query), a);
  }

  // --- Scanning in stages --------------------------------------------------------------------------

  lemma {:induction false} SelectSplits(s: seq<Airport>, f: Airport -> bool, i: nat)
    requires i <= |s|
    ensures Select(s[..i], f) <= Select(s, f)
    ensures (forall j | i <= j < |s| :: !f(s[j])) ==> Select(s[..i], f) == Select(s, f)
    decreases |s|
  {
    if i < |s| {
      var init := s[..|s| - 1];
      SelectSplits(init, f, i);
      assert init[..i] == s[..i];
      assert forall j | i <= j < |init| :: init[j] == s[j];
    } else {
      assert s[..i] == s;
    }
  }

  lemma SelectStep(s: seq<Airport>, f: Airport -> bool, i: nat)
    requires i < |s|
    ensures Select(s[..i + 1], f) == Select(s[..i], f) + if f(s[i]) then [s[i]] else []
  {
    assert s[..i + 1][..i] == s[..i];
  }

  /** A scan that stopped at `i` is the cut of the full scan, if it was full or nothing is left. */
  lemma SelectStops(found: seq<Airport>, s: seq<Airport>, f: Airport -> bool, i: nat, limit: nat)
    requires i <= |s| && |found + Select(s[..i], f)| <= limit
    requires |found + Select(s[..i], f)| == limit || forall j | i <= j < |s| :: !f(s[j])
    ensures found + Select(s[..i], f) == Cut(found + Select(s, f), limit)
  {
    SelectSplits(s, f, i);
    hide Select;
  }

  lemma {:induction false} LocalSplits(list: seq<Airport>, locals: seq<LocalEntry>, prefix: string, seen: set<string>, i: nat)
    requires i <= |locals|
    ensures LocalHits(list, locals[..i], prefix, seen) <= LocalHits(list, locals, prefix, seen)
    ensures (forall j | i <= j < |locals| :: !(prefix <= locals[j].code))
        ==> LocalHits(list, locals[..i], prefix, seen) == LocalHits(list, locals, prefix, seen)
    decreases |locals|
  {
    if i < |locals| {
      var init := locals[..|locals| - 1];
      LocalSplits(list, init, prefix, seen, i);
      assert init[..i] == locals[..i];
      assert forall j | i <= j < |init| :: init[j] == locals[j];
    } else {
      assert locals[..i] == locals;
    }
  }

  lemma LocalStep(list: seq<Airport>, locals: seq<LocalEntry>, prefix: string, seen: set<string>, i: nat)
    requires i < |locals|
    ensures LocalHits(list, locals[..i + 1], prefix, seen)
         == LocalHits(list, locals[..i], prefix, seen)
            + if IsLocalHit(list, locals[i], prefix, seen) then [list[locals[i].idx]] else []
  {
    assert locals[..i + 1][..i] == locals[..i];
  }

  lemma LocalStops(found: seq<Airport>, list: seq<Airport>, locals: seq<LocalEntry>, prefix: string, seen: set<string>, i: nat, limit: nat)
    requires i <= |locals| && |found + LocalHits(list, locals[..i], prefix, seen)| <= limit
    requires || |found + LocalHits(list, locals[..i], prefix, seen)| == limit
             || forall j | i <= j < |locals| :: !(prefix <= locals[j].code)
    ensures found + LocalHits(list, locals[..i], prefix, seen) == Cut(found + LocalHits(list, locals, prefix, seen), limit)
  {
    LocalSplits(list, locals, prefix, seen, i);
    hide LocalHits;
  }

  function CodesOf(list: seq<Airport>): seq<string> { seq(|list|, i requires 0 <= i < |list| => list[i].icao) }
  function LocalCodesOf(locals: seq<LocalEntry>): seq<string> { seq(|locals|, i requires 0 <= i < |locals| => locals[i].code) }

  /** searchPrefix: bisect to the prefix, then read on while it lasts. */
  method SearchPrefix(list: seq<Airport>, prefix: string, limit: nat) returns (results: seq<Airport>)
    requires Sorted(Icao, list)
    ensures results == Cut(PrefixHits(list, prefix), limit)
  {
    hide Select, Less, Sorted;
    ghost var hit := (a: Airport) => prefix <= a.icao;
    ghost var codes := CodesOf(list);
    CodesSorted(list);
    var start := LowerBound(CodesOf(list), prefix);
    NothingBefore(codes, prefix, start);
    results := [];
    assert forall j | 0 <= j < start :: !hit(list[j]) by { assert forall j | 0 <= j < start :: codes[j] == list[j].icao; }
    NoneSelected(list[..start], hit);
    var i := start;
    while i < |list| && |results| < limit && prefix <= list[i].icao
      invariant start <= i <= |list| && |results| <= limit
      invariant results == Select(list[..i], hit)
    {
      SelectStep(list, hit, i);
      results := results + [list[i]];
      i := i + 1;
    }
    if i < |list| && |results| < limit {
      PrefixesContiguous(codes, prefix, start, i);
      assert forall j | i <= j < |list| :: codes[j] == list[j].icao;
    }
    assert [] + Select(list[..i], hit) == results && [] + Select(list, hit) == Select(list, hit);
    SelectStops([], list, hit, i, limit);
  }

  lemma CodesSorted(list: seq<Airport>)
    requires Sorted(Icao, list)
    ensures Sorted((c: string) => c, CodesOf(list))
  {
    forall i, j | 0 <= i < j < |list| ensures Less(CodesOf(list)[i], CodesOf(list)[j]) {
      assert Less(Icao(list[i]), Icao(list[j]));
    }
  }

  lemma LocalCodesSorted(locals: seq<LocalEntry>)
    requires Sorted(Code, locals)
    ensures Sorted((c: string) => c, LocalCodesOf(locals))
  {
    forall i, j | 0 <= i < j < |locals| ensures Less(LocalCodesOf(locals)[i], LocalCodesOf(locals)[j]) {
      assert Less(Code(locals[i]), Code(locals[j]));
    }
  }

  lemma NothingBefore(codes: seq<string>, prefix: string, start: nat)
    requires start <= |codes| && forall i | 0 <= i < start :: Less(codes[i], prefix)
    ensures forall i | 0 <= i < start :: !(prefix <= codes[i])
  {
    forall i | 0 <= i < start ensures !(prefix <= codes[i]) {
      if prefix <= codes[i] { PrefixNotLess(codes[i], prefix); }
    }
  }

  lemma NoneSelected(s: seq<Airport>, f: Airport -> bool)
    requires forall j | 0 <= j < |s| :: !f(s[j])
    ensures Select(s, f) == []
  {
    SelectSplits(s, f, 0);
  }

  lemma NoneLocal(list: seq<Airport>, locals: seq<LocalEntry>, prefix: string, seen: set<string>)
    requires forall j | 0 <= j < |locals| :: !(prefix <= locals[j].code)
    ensures LocalHits(list, locals, prefix, seen) == []
  {
    LocalSplits(list, locals, prefix, seen, 0);
  }

  /** searchLocal: the same over the local codes, skipping what is already listed. */
  method SearchLocal(list: seq<Airport>, locals: seq<LocalEntry>, prefix: string, found: seq<Airport>, limit: nat) returns (results: seq<Airport>)
    requires Sorted(Code, locals) && forall e | e in locals :: 0 <= e.idx < |list|
    requires |found| <= limit
    ensures results == Cut(found + LocalHits(list, locals, prefix, Icaos(found)), limit)
  {
    hide LocalHits, Less, Sorted;
    var seen := Icaos(found);
    ghost var codes := LocalCodesOf(locals);
    LocalCodesSorted(locals);
    results := found;
    var start := LowerBound(LocalCodesOf(locals), prefix);
    NothingBefore(codes, prefix, start);
    assert forall j | 0 <= j < start :: codes[j] == locals[j].code;
    NoneLocal(list, locals[..start], prefix, seen);
    var i := start;
    while i < |locals| && |results| < limit && prefix <= locals[i].code
      invariant start <= i <= |locals| && |results| <= limit
      invariant results == found + LocalHits(list, locals[..i], prefix, seen)
    {
      assert locals[i] in locals;
      LocalStep(list, locals, prefix, seen, i);
      if list[locals[i].idx].icao !in seen { results := results + [list[locals[i].idx]]; }
      i := i + 1;
    }
    if i < |locals| && |results| < limit {
      PrefixesContiguous(codes, prefix, start, i);
      assert forall j | i <= j < |locals| :: codes[j] == locals[j].code;
    }
    LocalStops(found, list, locals, prefix, seen, i, limit);
  }

  /** searchName: a scan of the folded names, skipping what is already listed. */
  method SearchName(t: Texts, list: seq<Airport>, folded: seq<string>, query: string, found: seq<Airport>, limit: nat) returns (results: seq<Airport>)
    requires |folded| == |list| && forall i | 0 <= i < |list| :: folded[i] == t.fold(list[i].name)
    requires |found| <= limit
    ensures var q := t.fold(query);
            results == Cut(found + (if q == "" then [] else NameHits(t, list, q, Icaos(found))), limit)
  {
    hide Select, NameMatches;
    results := found;
    var q := t.fold(query);
    if q == "" { return; }
    var seen := Icaos(found);
    ghost var hit := (a: Airport) => a.icao !in seen && NameMatches(t.fold(a.name), q);
    assert NameHits(t, list, q, seen) == Select(list, hit);
    NoneSelected([], hit);
    assert list[..0] == [];
    var i := 0;
    while i < |list| && |results| < limit
      invariant 0 <= i <= |list| && |results| <= limit
      invariant results == found + Select(list[..i], hit)
    {
      SelectStep(list, hit, i);
      if list[i].icao !in seen && NameMatches(folded[i], q) { results := results + [list[i]]; }
      i := i + 1;
    }
    SelectStops(found, list, hit, i, limit);
  }

  lemma {:induction false} CutTwice(a: seq<Airport>, b: seq<Airport>, limit: nat)
    ensures |a| > limit ==> Cut(Cut(a, limit) + b, limit) == Cut(a, limit)
    ensures |a| <= limit ==> Cut(a, limit) == a
    ensures |a| >= limit ==> Cut(a + b, limit) == Cut(a, limit)
  {
  }

  // --- The nearest airport -----------------------------------------------------------------------------

  /** The best candidate so far, -1 for none. */
  datatype Best = Best(idx: int, dist: real)

  /** Distances from the query to the airports of a list. */
  type Distance = (real, real, real, real) -> real

  function DistTo(dist: Distance, b: Box, list: seq<Airport>, i: int): real {
    if 0 <= i < |list| then dist(b.lat, b.lon, list[i].latitude, list[i].longitude) else 0.0
  }

  function Consider(d: int -> real, best: Best, i: int): Best {
    if d(i) <= best.dist then Best(i, d(i)) else best
  }

  function ConsiderAll(d: int -> real, best: Best, s: seq<int>): Best {
    if s == [] then best else Consider(d, ConsiderAll(d, best, s[..|s| - 1]), s[|s| - 1])
  }

  lemma {:induction false} ConsiderAppend(d: int -> real, best: Best, s: seq<int>, t: seq<int>)
    ensures ConsiderAll(d, best, s + t) == ConsiderAll(d, ConsiderAll(d, best, s), t)
  {
    if t == [] {
      assert s + t == s;
    } else {
      ConsiderAppend(d, best, s, t[..|t| - 1]);
      assert (s + t)[..|s + t| - 1] == s + t[..|t| - 1];
    }
  }

  /** The candidate is at minimal distance among those considered, if any is in range. */
  ghost predicate IsBest(d: int -> real, maxDist: real, s: seq<int>, best: Best) {
    || (best == Best(-1, maxDist) && forall i | i in s :: d(i) > maxDist)
    || (best.idx in s && best.dist == d(best.idx) <= maxDist && forall i | i in s :: d(i) >= best.dist)
  }

  lemma {:induction false} ConsiderFindsBest(d: int -> real, maxDist: real, s: seq<int>)
    ensures IsBest(d, maxDist, s, ConsiderAll(d, Best(-1, maxDist), s))
  {
    if s != [] {
      ConsiderFindsBest(d, maxDist, s[..|s| - 1]);
      assert s == s[..|s| - 1] + [s[|s| - 1]];
    }
  }

  /** The members of the first `n` cells of the row at offset `dLat`, and of the first `n` rows. */
  function RowMembers(b: Box, grid: map<Cell, seq<int>>, dLat: int, n: nat): seq<int>
    requires !b.Polar()
  {
    if n == 0 then []
    else
      var c := b.CellAt(dLat, -b.LonCells() + n - 1);
      RowMembers(b, grid, dLat, n - 1) + if c in grid then grid[c] else []
  }

  function RowsMembers(b: Box, grid: map<Cell, seq<int>>, n: nat): seq<int>
    requires !b.Polar()
  {
    if n == 0 then []
    else
      var dLat := -b.LatCells() + n - 1;
      RowsMembers(b, grid, n - 1)
      + if -90 <= b.lat.Floor + dLat <= 90 then RowMembers(b, grid, dLat, RowLength(b)) else []
  }

  function RowLength(b: Box): nat
    requires !b.Polar()
  {
    if b.LonCells() >= 0 then 2 * b.LonCells() + 1 else 0
  }

  function RowCount(b: Box): nat { if b.LatCells() >= 0 then 2 * b.LatCells() + 1 else 0 }

  lemma {:induction false} RowHolds(b: Box, grid: map<Cell, seq<int>>, dLat: int, n: nat, dLon: int, i: int)
    requires !b.Polar() && -b.LonCells() <= dLon < -b.LonCells() + n
    requires b.CellAt(dLat, dLon) in grid && i in grid[b.CellAt(dLat, dLon)]
    ensures i in RowMembers(b, grid, dLat, n)
  {
    hide WrapCell, Ceil;
    if dLon < -b.LonCells() + n - 1 { RowHolds(b, grid, dLat, n - 1, dLon, i); }
  }

  lemma {:induction false} RowsHold(b: Box, grid: map<Cell, seq<int>>, n: nat, dLat: int, dLon: int, i: int)
    requires !b.Polar() && b.Visits(dLat, dLon) && dLat < -b.LatCells() + n
    requires b.CellAt(dLat, dLon) in grid && i in grid[b.CellAt(dLat, dLon)]
    ensures i in RowsMembers(b, grid, n)
  {
    hide RowMembers, WrapCell, Ceil;
    if dLat < -b.LatCells() + n - 1 {
      RowsHold(b, grid, n - 1, dLat, dLon, i);
    } else {
      RowHolds(b, grid, dLat, RowLength(b), dLon, i);
    }
  }

  /** Whatever a row holds lies in the grid, short of longitude 180. */
  lemma {:induction false} RowWithin(list: seq<Airport>, b: Box, grid: map<Cell, seq<int>>, dLat: int, n: nat, i: int)
    requires !b.Polar() && GridOf(list, grid) && i in RowMembers(b, grid, dLat, n)
    ensures 0 <= i < |list| && list[i].longitude < 180.0
  {
    var c := b.CellAt(dLat, -b.LonCells() + n - 1);
    if i in RowMembers(b, grid, dLat, n - 1) {
      RowWithin(list, b, grid, dLat, n - 1, i);
    } else {
      assert CellHolds(list, c, grid[c]);
      WrapIsResidue(b.lon.Floor - b.LonCells() + n - 1);
    }
  }

  lemma {:induction false} RowsWithin(list: seq<Airport>, b: Box, grid: map<Cell, seq<int>>, n: nat, i: int)
    requires !b.Polar() && GridOf(list, grid) && i in RowsMembers(b, grid, n)
    ensures 0 <= i < |list| && list[i].longitude < 180.0
  {
    hide RowMembers, WrapCell, Ceil, GridOf;
    if i in RowsMembers(b, grid, n - 1) {
      RowsWithin(list, b, grid, n - 1, i);
    } else {
      RowWithin(list, b, grid, -b.LatCells() + n - 1, RowLength(b), i);
    }
  }

  /** The two bounds that a distance obeys away from the poles: an airport in range is in the box. */
  ghost predicate Bounded(dist: Distance, b: Box, list: seq<Airport>) {
    !b.Polar() ==>
      forall i | 0 <= i < |list| && DistTo(dist, b, list, i) <= b.maxDist :: InBox(b, list[i].latitude, list[i].longitude)
  }

  /** The grid holds no airport at longitude exactly 180 where a search can see it. */
  predicate Visible(b: Box, a: Airport) { b.Polar() || a.longitude < 180.0 }

  /** What `nearest` should return: a visible airport at minimal distance within range,
      and nothing exactly when there is none. */
  ghost predicate NearestOf(dist: Distance, b: Box, list: seq<Airport>, r: Option<Airport>) {
    match r
    case None => forall i | 0 <= i < |list| && Visible(b, list[i]) :: DistTo(dist, b, list, i) > b.maxDist
    case Some(a) =>
      exists k :: 0 <= k < |list| && list[k] == a && Visible(b, a) && DistTo(dist, b, list, k) <= b.maxDist
        && forall i | 0 <= i < |list| && Visible(b, list[i]) :: DistTo(dist, b, list, i) >= DistTo(dist, b, list, k)
  }

  /** Considering every visible airport in range finds the nearest. */
  lemma BestIsNearest(dist: Distance, b: Box, list: seq<Airport>, s: seq<int>, best: Best)
    requires IsBest(i => DistTo(dist, b, list, i), b.maxDist, s, best)
    requires forall i | i in s :: 0 <= i < |list| && Visible(b, list[i])
    requires forall i | 0 <= i < |list| && Visible(b, list[i]) && DistTo(dist, b, list, i) <= b.maxDist :: i in s
    ensures best.idx < 0 || best.idx < |list|
    ensures NearestOf(dist, b, list, if best.idx < 0 then None else Some(list[best.idx]))
  {
    hide DistTo, Visible;
    var d := i => DistTo(dist, b, list, i);
    if best.idx < 0 {
      forall i | 0 <= i < |list| && Visible(b, list[i]) ensures DistTo(dist, b, list, i) > b.maxDist {
        assert i in s ==> d(i) > b.maxDist;
      }
    } else {
      forall i | 0 <= i < |list| && Visible(b, list[i]) ensures DistTo(dist, b, list, i) >= DistTo(dist, b, list, best.idx) {
        if DistTo(dist, b, list, i) <= b.maxDist { assert d(i) >= best.dist; }
      }
    }
  }

  /** Every visible airport in range is among those the grid walk meets. */
  lemma WalkMeetsAll(dist: Distance, b: Box, list: seq<Airport>, grid: map<Cell, seq<int>>, i: int)
    requires !b.Polar() && GridOf(list, grid) && Bounded(dist, b, list)
    requires 0 <= i < |list| && OnGlobe(list[i].latitude, list[i].longitude) && list[i].longitude < 180.0
    requires DistTo(dist, b, list, i) <= b.maxDist
    ensures i in RowsMembers(b, grid, RowCount(b))
  {
    var dLat, dLon := BoxIsCovered(b, list[i].latitude, list[i].longitude);
    assert HomeCell(list[i]) in grid && i in grid[HomeCell(list[i])];
    RowsHold(b, grid, RowCount(b), dLat, dLon, i);
  }

  function Positions(n: nat): seq<int> { seq(n, i => i) }

  lemma ScanIsNearest(dist: Distance, b: Box, list: seq<Airport>, best: Best)
    requires b.Polar()
    requires best == ConsiderAll(i => DistTo(dist, b, list, i), Best(-1, b.maxDist), Positions(|list|))
    ensures best.idx < 0 || best.idx < |list|
    ensures NearestOf(dist, b, list, if best.idx < 0 then None else Some(list[best.idx]))
  {
    hide NearestOf, DistTo, ConsiderAll;
    var met := Positions(|list|);
    forall i | 0 <= i < |list| ensures i in met { assert met[i] == i; }
    ConsiderFindsBest(i => DistTo(dist, b, list, i), b.maxDist, met);
    BestIsNearest(dist, b, list, met, best);
  }

  lemma WalkIsNearest(dist: Distance, b: Box, list: seq<Airport>, grid: map<Cell, seq<int>>, best: Best)
    requires !b.Polar() && GridOf(list, grid) && Bounded(dist, b, list)
    requires forall a | a in list :: OnGlobe(a.latitude, a.longitude)
    requires best == ConsiderAll(i => DistTo(dist, b, list, i), Best(-1, b.maxDist), RowsMembers(b, grid, RowCount(b)))
    ensures best.idx < 0 || best.idx < |list|
    ensures NearestOf(dist, b, list, if best.idx < 0 then None else Some(list[best.idx]))
  {
    hide NearestOf, DistTo, ConsiderAll, RowsMembers, GridOf, Bounded, OnGlobe;
    var met := RowsMembers(b, grid, RowCount(b));
    forall i | i in met ensures 0 <= i < |list| && Visible(b, list[i]) {
      RowsWithin(list, b, grid, RowCount(b), i);
    }
    forall i | 0 <= i < |list| && Visible(b, list[i]) && DistTo(dist, b, list, i) <= b.maxDist ensures i in met {
      WalkMeetsAll(dist, b, list, grid, i);
    }
    ConsiderFindsBest(i => DistTo(dist, b, list, i), b.maxDist, met);
    BestIsNearest(dist, b, list, met, best);
  }

  /** A full scan's answer: visibility plays no part. */
  ghost predicate ScanOf(dist: Distance, b: Box, list: seq<Airport>, r: Option<Airport>) {
    match r
    case None => forall i | 0 <= i < |list| :: DistTo(dist, b, list, i) > b.maxDist
    case Some(a) =>
      exists k :: 0 <= k < |list| && list[k] == a && DistTo(dist, b, list, k) <= b.maxDist
        && forall i | 0 <= i < |list| :: DistTo(dist, b, list, i) >= DistTo(dist, b, list, k)
  }

  /** An airport in range at longitude exactly 180, away from the poles, that is nearer than all the others. */
  ghost predicate LostOnDateLine(dist: Distance, b: Box, list: seq<Airport>, i: int) {
    && 0 <= i < |list| && !Visible(b, list[i]) && DistTo(dist, b, list, i) <= b.maxDist
    && forall j | 0 <= j < |list| && Visible(b, list[j]) :: DistTo(dist, b, list, j) > DistTo(dist, b, list, i)
  }

  /** The grid's answer is a full scan's exactly when no such airport exists; in
      particular whenever every stored longitude is below 180. */
  lemma NearestIsScanIff(dist: Distance, b: Box, list: seq<Airport>, r: Option<Airport>)
    requires NearestOf(dist, b, list, r)
    ensures ScanOf(dist, b, list, r) <==> !exists i :: LostOnDateLine(dist, b, list, i)
    ensures (forall a | a in list :: a.longitude < 180.0) ==> ScanOf(dist, b, list, r)
  {
    hide DistTo;
    if i :| LostOnDateLine(dist, b, list, i) {
      assert list[i] in list;
    } else {
      NothingLost(dist, b, list, r);
    }
  }

  lemma NothingLost(dist: Distance, b: Box, list: seq<Airport>, r: Option<Airport>)
    requires NearestOf(dist, b, list, r) && forall i :: !LostOnDateLine(dist, b, list, i)
    ensures ScanOf(dist, b, list, r)
  {
    hide DistTo, Visible;
    if r.Some? {
      var k :| 0 <= k < |list| && list[k] == r.value && Visible(b, list[k]) && DistTo(dist, b, list, k) <= b.maxDist
        && forall i | 0 <= i < |list| && Visible(b, list[i]) :: DistTo(dist, b, list, i) >= DistTo(dist, b, list, k);
      forall i | 0 <= i < |list| ensures DistTo(dist, b, list, i) >= DistTo(dist, b, list, k) {
        assert !LostOnDateLine(dist, b, list, i);
      }
    } else {
      forall i | 0 <= i < |list| ensures DistTo(dist, b, list, i) > b.maxDist {
        assert !LostOnDateLine(dist, b, list, i);
      }
    }
  }

  /** The box of a query, with the cosine at its highest latitude. */
  function BoxAt(cos: real -> real, lat: real, lon: real, maxDist: real): Box {
    Box(lat, lon, maxDist, cos(MaxAbsLat(lat, maxDist)))
  }

  /** What is used of the distances from one query, all of it true of great circles: a degree of
      latitude is 60 miles or more, and so is a degree of longitude times the cosine of any latitude
      that the way does not go beyond. Nothing is said of the search box. */
  ghost predicate Measures(dist: Distance, cos: real -> real, lat: real, lon: real, list: seq<Airport>) {
    && cos(90.0) < POLAR_COS_LIMIT
    && forall a | a in list ::
         var d := dist(lat, lon, a.latitude, a.longitude);
         && 0.0 <= d
         && (Latitude(lat) ==>
               && 60.0 * Abs(a.latitude - lat) <= d
               && forall m | Abs(lat) + d / 60.0 <= m <= 90.0 :: 60.0 * WrappedDelta(a.longitude - lon) * cos(m) <= d)
  }

  /** Then whatever is in range lies in the box, unless the search is polar: the box is wide enough. */
  lemma BoxIsWideEnough(dist: Distance, cos: real -> real, lat: real, lon: real, maxDist: real, list: seq<Airport>)
    requires Measures(dist, cos, lat, lon, list)
    ensures Bounded(dist, BoxAt(cos, lat, lon, maxDist), list)
  {
    hide WrappedDelta;
    var b := BoxAt(cos, lat, lon, maxDist);
    if !b.Polar() {
      forall i | 0 <= i < |list| && DistTo(dist, b, list, i) <= maxDist ensures InBox(b, list[i].latitude, list[i].longitude) {
        var d := dist(lat, lon, list[i].latitude, list[i].longitude);
        assert list[i] in list && d <= maxDist;
        assert Abs(lat) + d / 60.0 <= MaxAbsLat(lat, maxDist);
      }
    }
  }

  /** It does happen: a query that stands on the only airport, at valid coordinates with
      longitude 180 and away from the poles, can only be answered with nothing. */
  lemma DateLineLoses(a: Airport, dist: Distance, cos: real -> real, maxDist: real, r: Option<Airport>)
    requires ValidCoords(a) && a.longitude == 180.0 && maxDist >= 0.0 && cos(MaxAbsLat(a.latitude, maxDist)) >= POLAR_COS_LIMIT
    requires dist(a.latitude, 180.0, a.latitude, 180.0) == 0.0
    requires NearestOf(dist, BoxAt(cos, a.latitude, 180.0, maxDist), [a], r)
    ensures r == None && !ScanOf(dist, BoxAt(cos, a.latitude, 180.0, maxDist), [a], r)
  {
    var b := BoxAt(cos, a.latitude, 180.0, maxDist);
    assert DistTo(dist, b, [a], 0) == 0.0 && !Visible(b, [a][0]);
  }

  /** Some query in range of the airport is not near enough to a pole to see longitude 180. */
  ghost predicate Exposed(dist: Distance, cos: real -> real, maxDist: real, a: Airport) {
    !(a.longitude < 180.0) && exists lat, lon ::
      dist(lat, lon, a.latitude, a.longitude) <= maxDist && !BoxAt(cos, lat, lon, maxDist).Polar()
  }

  /** Every query on the list is answered as a full scan would answer it. */
  ghost predicate AgreesWithScan(dist: Distance, cos: real -> real, maxDist: real, list: seq<Airport>) {
    forall lat, lon, r | NearestOf(dist, BoxAt(cos, lat, lon, maxDist), list, r) :: ScanOf(dist, BoxAt(cos, lat, lon, maxDist), list, r)
  }

  ghost predicate PartOf(part: seq<Airport>, list: seq<Airport>) { forall a | a in part :: a in list }

  lemma ExposedLoses(dist: Distance, cos: real -> real, maxDist: real, a: Airport)
    requires Exposed(dist, cos, maxDist, a)
    ensures !AgreesWithScan(dist, cos, maxDist, [a])
  {
    var lat, lon :| dist(lat, lon, a.latitude, a.longitude) <= maxDist && !BoxAt(cos, lat, lon, maxDist).Polar();
    var b := BoxAt(cos, lat, lon, maxDist);
    assert DistTo(dist, b, [a], 0) <= maxDist && !Visible(b, [a][0]);
    assert NearestOf(dist, b, [a], None) && !ScanOf(dist, b, [a], None);
  }

  lemma UnexposedAgrees(dist: Distance, cos: real -> real, maxDist: real, list: seq<Airport>)
    requires forall a | a in list :: !Exposed(dist, cos, maxDist, a)
    ensures AgreesWithScan(dist, cos, maxDist, list)
  {
    forall lat, lon, r | NearestOf(dist, BoxAt(cos, lat, lon, maxDist), list, r)
      ensures ScanOf(dist, BoxAt(cos, lat, lon, maxDist), list, r)
    {
      var b := BoxAt(cos, lat, lon, maxDist);
      forall i ensures !LostOnDateLine(dist, b, list, i) {
        if 0 <= i < |list| && !Visible(b, list[i]) && DistTo(dist, b, list, i) <= b.maxDist {
          assert list[i] in list && Exposed(dist, cos, maxDist, list[i]);
        }
      }
      NothingLost(dist, b, list, r);
    }
  }

  /** Whatever part of a database is loaded, every query agrees with a full scan exactly when no
      airport is exposed. */
  lemma AnyPartAgreesIff(dist: Distance, cos: real -> real, maxDist: real, list: seq<Airport>)
    ensures (forall part | PartOf(part, list) :: AgreesWithScan(dist, cos, maxDist, part))
       <==> (forall a | a in list :: !Exposed(dist, cos, maxDist, a))
  {
    hide Exposed, AgreesWithScan;
    if forall a | a in list :: !Exposed(dist, cos, maxDist, a) {
      forall part | PartOf(part, list) ensures AgreesWithScan(dist, cos, maxDist, part) {
        UnexposedAgrees(dist, cos, maxDist, part);
      }
    }
    if forall part | PartOf(part, list) :: AgreesWithScan(dist, cos, maxDist, part) {
      forall a | a in list ensures !Exposed(dist, cos, maxDist, a) {
        assert PartOf([a], list);
        if Exposed(dist, cos, maxDist, a) { ExposedLoses(dist, cos, maxDist, a); }
      }
    }
  }

  predicate Latitude(lat: real) { -90.0 <= lat <= 90.0 }

  /** Between latitudes of the globe, a degree is `k` nautical miles along a meridian, and no
      way is shorter. */
  ghost predicate Spherical(dist: Distance, k: real) {
    && (forall lat, lon, lat', lon' | Latitude(lat) && Latitude(lat') :: dist(lat, lon, lat', lon') >= k * Abs(lat' - lat))
    && (forall lat, lon, lat' | Latitude(lat) && Latitude(lat') :: dist(lat, lon, lat', lon) == k * Abs(lat' - lat))
  }

  ghost predicate Decreasing(cos: real -> real) { forall x, y | 0.0 <= x <= y <= 90.0 :: cos(y) <= cos(x) }

  /** The latitude nearest the equator from which a place at latitude `lat` is in range. */
  function Reach(lat: real, maxDist: real, k: real): real
    requires k > 0.0
  {
    if Abs(lat) > maxDist / k then Abs(lat) - maxDist / k else 0.0
  }

  lemma ReachIsLeast(lat: real, q: real, maxDist: real, k: real)
    requires k > 0.0 && k * Abs(lat - q) <= maxDist
    ensures Reach(lat, maxDist, k) <= Abs(q)
  {
    DivideBy(Abs(lat - q), k, maxDist);
  }

  lemma ReachInRange(lat: real, maxDist: real, k: real) returns (q: real)
    requires k > 0.0 && maxDist >= 0.0
    ensures Abs(q) == Reach(lat, maxDist, k) && k * Abs(lat - q) <= maxDist
  {
    var d := maxDist / k;
    assert d * k == maxDist;
    var r := Reach(lat, maxDist, k);
    q := if lat >= 0.0 then r else -r;
    var gap := Abs(lat - q);
    assert gap <= d;
    assert gap * k <= d * k;
  }

  /** What is used of the distance and the cosine: all of it true of great circles. */
  ghost predicate Globe(dist: Distance, cos: real -> real, k: real) {
    k >= 60.0 && Spherical(dist, k) && Decreasing(cos) && cos(90.0) < POLAR_COS_LIMIT
  }

  /** An airport at longitude 180 is exposed exactly when, seen from the latitude nearest the
      equator that has it in range, the search is not yet polar. This is decided by its latitude. */
  lemma ExposedIff(dist: Distance, cos: real -> real, maxDist: real, k: real, a: Airport)
    requires Globe(dist, cos, k) && maxDist >= 0.0 && Latitude(a.latitude)
    ensures Exposed(dist, cos, maxDist, a)
       <==> !(a.longitude < 180.0) && cos(MaxAbsLat(Reach(a.latitude, maxDist, k), maxDist)) >= POLAR_COS_LIMIT
  {
    hide Exposed, Spherical, Decreasing, MaxAbsLat, Reach;
    if Exposed(dist, cos, maxDist, a) { ExposedReaches(dist, cos, maxDist, k, a); }
    if !(a.longitude < 180.0) && cos(MaxAbsLat(Reach(a.latitude, maxDist, k), maxDist)) >= POLAR_COS_LIMIT {
      var q := ReachInRange(a.latitude, maxDist, k);
      ReachBetween(a.latitude, maxDist, k);
      BoxGrows(Reach(a.latitude, maxDist, k), q, maxDist);
      SphericalAt(dist, k, q, a.longitude, a.latitude, a.longitude);
      InRangeExposes(dist, cos, maxDist, a, q, a.longitude);
    }
  }

  /** So whether every query agrees with a full scan, whatever part of the database is loaded,
      can be read off the stored airports: each lies short of longitude 180, or so near a pole
      that all queries in its range are polar. */
  lemma DatabaseAgreesIff(dist: Distance, cos: real -> real, maxDist: real, k: real, list: seq<Airport>)
    requires Globe(dist, cos, k) && maxDist >= 0.0 && forall a | a in list :: Latitude(a.latitude)
    ensures (forall part | PartOf(part, list) :: AgreesWithScan(dist, cos, maxDist, part))
       <==> (forall a | a in list :: a.longitude < 180.0 || cos(MaxAbsLat(Reach(a.latitude, maxDist, k), maxDist)) < POLAR_COS_LIMIT)
  {
    hide Exposed, Spherical, Decreasing, MaxAbsLat, Reach, AgreesWithScan, PartOf;
    AnyPartAgreesIff(dist, cos, maxDist, list);
    forall a | a in list
      ensures Exposed(dist, cos, maxDist, a)
         <==> !(a.longitude < 180.0) && cos(MaxAbsLat(Reach(a.latitude, maxDist, k), maxDist)) >= POLAR_COS_LIMIT
    {
      ExposedIff(dist, cos, maxDist, k, a);
    }
  }

  /** That the search is polar when it stands on the airport is not enough: wherever a query on
      its meridian has it in range and is not polar itself, the airport is lost. */
  lemma PolarAtHomeIsNotEnough(dist: Distance, cos: real -> real, maxDist: real, k: real, a: Airport, q: real)
    requires Globe(dist, cos, k) && maxDist >= 0.0 && Latitude(a.latitude) && Latitude(q) && a.longitude == 180.0
    requires k * Abs(a.latitude - q) <= maxDist
    requires cos(MaxAbsLat(a.latitude, maxDist)) < POLAR_COS_LIMIT <= cos(MaxAbsLat(q, maxDist))
    ensures BoxAt(cos, a.latitude, a.longitude, maxDist).Polar() && !AgreesWithScan(dist, cos, maxDist, [a])
  {
    hide AgreesWithScan, Exposed, Spherical, Decreasing, MaxAbsLat;
    SphericalAt(dist, k, q, 180.0, a.latitude, 180.0);
    InRangeExposes(dist, cos, maxDist, a, q, 180.0);
    ExposedLoses(dist, cos, maxDist, a);
  }

  lemma InRangeExposes(dist: Distance, cos: real -> real, maxDist: real, a: Airport, lat: real, lon: real)
    requires !(a.longitude < 180.0) && dist(lat, lon, a.latitude, a.longitude) <= maxDist && !BoxAt(cos, lat, lon, maxDist).Polar()
    ensures Exposed(dist, cos, maxDist, a)
  {
  }

  lemma SphericalAt(dist: Distance, k: real, lat: real, lon: real, lat': real, lon': real)
    requires Spherical(dist, k) && Latitude(lat) && Latitude(lat')
    ensures dist(lat, lon, lat', lon') >= k * Abs(lat' - lat)
    ensures lon == lon' ==> dist(lat, lon, lat', lon') == k * Abs(lat' - lat)
  {
  }

  lemma ReachBetween(lat: real, maxDist: real, k: real)
    requires k > 0.0 && maxDist >= 0.0
    ensures 0.0 <= Reach(lat, maxDist, k) <= Abs(lat)
  {
    NotNegative(maxDist, k);
  }

  lemma NotNegative(x: real, k: real)
    requires k > 0.0 && x >= 0.0
    ensures x / k >= 0.0
  {
  }

  lemma ExposedReaches(dist: Distance, cos: real -> real, maxDist: real, k: real, a: Airport)
    requires Globe(dist, cos, k) && maxDist >= 0.0 && Latitude(a.latitude) && Exposed(dist, cos, maxDist, a)
    ensures !(a.longitude < 180.0) && cos(MaxAbsLat(Reach(a.latitude, maxDist, k), maxDist)) >= POLAR_COS_LIMIT
  {
    hide Spherical, Decreasing, MaxAbsLat, Reach;
    var lat, lon :| dist(lat, lon, a.latitude, a.longitude) <= maxDist && !BoxAt(cos, lat, lon, maxDist).Polar();
    if !Latitude(lat) { OffGlobeIsPolar(lat, maxDist); }
    SphericalAt(dist, k, lat, lon, a.latitude, a.longitude);
    SeenFrom(cos, maxDist, k, a.latitude, lat);
  }

  /** A query off the globe is clamped to the pole. */
  lemma OffGlobeIsPolar(lat: real, maxDist: real)
    requires !Latitude(lat) && maxDist >= 0.0
    ensures MaxAbsLat(lat, maxDist) == 90.0
  {
  }

  lemma SeenFrom(cos: real -> real, maxDist: real, k: real, lat: real, q: real)
    requires k >= 60.0 && Decreasing(cos) && maxDist >= 0.0 && k * Abs(lat - q) <= maxDist
    requires cos(MaxAbsLat(q, maxDist)) >= POLAR_COS_LIMIT
    ensures cos(MaxAbsLat(Reach(lat, maxDist, k), maxDist)) >= POLAR_COS_LIMIT
  {
    ReachIsLeast(lat, q, maxDist, k);
    ReachBetween(lat, maxDist, k);
    BoxGrows(Reach(lat, maxDist, k), q, maxDist);
  }

  lemma BoxGrows(x: real, y: real, maxDist: real)
    requires 0.0 <= x <= Abs(y) && maxDist >= 0.0
    ensures 0.0 <= MaxAbsLat(x, maxDist) <= MaxAbsLat(y, maxDist) <= 90.0
    ensures x == Abs(y) ==> MaxAbsLat(x, maxDist) == MaxAbsLat(y, maxDist)
  {
  }

  lemma RowsStep(d: int -> real, b: Box, grid: map<Cell, seq<int>>, start: Best, n: nat)
    requires !b.Polar()
    ensures ConsiderAll(d, start, RowsMembers(b, grid, 0)) == start
    ensures var dLat := -b.LatCells() + n;
            var before := ConsiderAll(d, start, RowsMembers(b, grid, n));
            ConsiderAll(d, start, RowsMembers(b, grid, n + 1))
            == if -90 <= b.lat.Floor + dLat <= 90 then ConsiderAll(d, before, RowMembers(b, grid, dLat, RowLength(b))) else before
  {
    hide RowMembers, WrapCell, Ceil, Consider;
    var dLat := -b.LatCells() + n;
    var row := if -90 <= b.lat.Floor + dLat <= 90 then RowMembers(b, grid, dLat, RowLength(b)) else [];
    ConsiderAppend(d, start, RowsMembers(b, grid, n), row);
  }

  lemma RowStep(d: int -> real, b: Box, grid: map<Cell, seq<int>>, dLat: int, start: Best, n: nat)
    requires !b.Polar()
    ensures ConsiderAll(d, start, RowMembers(b, grid, dLat, 0)) == start
    ensures var c := b.CellAt(dLat, -b.LonCells() + n);
            ConsiderAll(d, start, RowMembers(b, grid, dLat, n + 1))
            == ConsiderAll(d, ConsiderAll(d, start, RowMembers(b, grid, dLat, n)), if c in grid then grid[c] else [])
  {
    hide WrapCell, Ceil, Consider;
    var c := b.CellAt(dLat, -b.LonCells() + n);
    ConsiderAppend(d, start, RowMembers(b, grid, dLat, n), if c in grid then grid[c] else []);
  }

  /** The grid walk's nested loops. */
  method WalkGrid(d: int -> real, b: Box, grid: map<Cell, seq<int>>, start: Best) returns (best: Best)
    requires !b.Polar()
    ensures best == ConsiderAll(d, start, RowsMembers(b, grid, RowCount(b)))
  {
    hide ConsiderAll, RowsMembers, RowMembers, WrapCell, Ceil;
    best := start;
    var dLat := -b.LatCells();
    ghost var n := 0;
    RowsStep(d, b, grid, start, 0);
    while dLat <= b.LatCells()
      invariant 0 <= n <= RowCount(b) && dLat == -b.LatCells() + n
      invariant best == ConsiderAll(d, start, RowsMembers(b, grid, n))
    {
      var l := b.lat.Floor + dLat;
      RowsStep(d, b, grid, start, n);
      if -90 <= l <= 90 { best := WalkRow(d, b, grid, dLat, best); }
      dLat, n := dLat + 1, n + 1;
    }
  }

  method WalkRow(d: int -> real, b: Box, grid: map<Cell, seq<int>>, dLat: int, start: Best) returns (best: Best)
    requires !b.Polar()
    ensures best == ConsiderAll(d, start, RowMembers(b, grid, dLat, RowLength(b)))
  {
    hide ConsiderAll, RowMembers, TruncMod, Ceil;
    best := start;
    var dLon := -b.LonCells();
    ghost var n := 0;
    RowStep(d, b, grid, dLat, start, 0);
    while dLon <= b.LonCells()
      invariant 0 <= n <= RowLength(b) && dLon == -b.LonCells() + n
      invariant best == ConsiderAll(d, start, RowMembers(b, grid, dLat, n))
    {
      var c := Cell(b.lat.Floor + dLat, TruncMod(TruncMod(b.lon.Floor + dLon + 180, 360) + 360, 360) - 180);
      var members := if c in grid then grid[c] else [];
      RowStep(d, b, grid, dLat, start, n);
      best := WalkCell(d, members, best);
      dLon, n := dLon + 1, n + 1;
    }
  }

  method WalkCell(d: int -> real, members: seq<int>, start: Best) returns (best: Best)
    ensures best == ConsiderAll(d, start, members)
  {
    best := start;
    for k := 0 to |members|
      invariant best == ConsiderAll(d, start, members[..k])
    {
      assert members[..k + 1][..k] == members[..k];
      if d(members[k]) <= best.dist { best := Best(members[k], d(members[k])); }
    }
    assert members[..|members|] == members;
  }

  // --- The snapshot -----------------------------------------------------------------------------------------

  class Snapshot {
    const texts: Texts
    var list: seq<Airport>
    var byIcao: map<string, int>
    var byName: map<string, int>
    var folded: seq<string>
    var byLocal: map<string, int>
    var locals: seq<LocalEntry>
    var grid: map<Cell, seq<int>>

    /** Every index agrees with the list, and the list with the records. */
    ghost predicate Indexed()
      reads this
    {
      Sorted(Icao, list) && IndexesOf(texts, list, Indexes(byIcao, byName, folded, byLocal, grid)) && LocalsOf(byLocal, locals)
    }

    constructor (t: Texts, records: Records)
      requires Keyed(records)
      ensures texts == t && Indexed() && ListOf(records, list)
    {
      texts := t;
      var sorted := SortedList(records);
      var x := IndexAll(t, sorted);
      var entries := LocalEntries(x.byLocal);
      list, byIcao, byName, folded, byLocal, grid, locals := sorted, x.byIcao, x.byName, x.folded, x.byLocal, x.grid, entries;
    }

    /** The airport with that code. */
    method Lookup(code: string) returns (r: Option<Airport>)
      requires Indexed()
      ensures r == None <==> forall a | a in list :: a.icao != code
      ensures r.Some? ==> r.value in list && r.value.icao == code
    {
      if code !in byIcao { return None; }
      return Some(list[byIcao[code]]);
    }

    /** The airport with that code, otherwise the only one with that local code. */
    method LookupCode(code: string) returns (r: Option<Airport>, ambiguous: bool)
      requires Indexed()
      ensures (exists a :: a in list && a.icao == code) ==> r.Some? && r.value in list && r.value.icao == code && !ambiguous
      ensures (forall a | a in list :: a.icao != code) ==>
                && (ambiguous <==> Shared(AllLocalKeys(list), code))
                && (r.Some? <==> exists i :: Only(AllLocalKeys(list), i, code))
                && forall i | Only(AllLocalKeys(list), i, code) :: r == Some(list[i])
    {
      r := Lookup(code);
      if r.Some? { return r, false; }
      KeyIndexAgrees(AllLocalKeys(list), byLocal, code);
      if code !in byLocal { return None, false; }
      if byLocal[code] == AMBIGUOUS { return None, true; }
      assert Only(AllLocalKeys(list), byLocal[code], code);
      return Some(list[byLocal[code]]), false;
    }

    /** The only airport with that name key. */
    method LookupName(name: string) returns (r: Option<Airport>, ambiguous: bool)
      requires Indexed()
      ensures ambiguous <==> Shared(AllNameKeys(texts, list), texts.fold(name))
      ensures r.Some? <==> exists i :: Only(AllNameKeys(texts, list), i, texts.fold(name))
      ensures forall i | Only(AllNameKeys(texts, list), i, texts.fold(name)) :: r == Some(list[i])
    {
      var key := texts.fold(name);
      KeyIndexAgrees(AllNameKeys(texts, list), byName, key);
      if key !in byName { return None, false; }
      if byName[key] == AMBIGUOUS { return None, true; }
      assert Only(AllNameKeys(texts, list), byName[key], key);
      return Some(list[byName[key]]), false;
    }

    /** The three stages in turn. */
    method Search(query: string, limit: int) returns (results: seq<Airport>)
      requires Indexed()
      ensures results == SearchResult(texts, list, locals, query, limit)
    {
      if texts.trim(query) == "" || limit <= 0 { return []; }
      var prefix := texts.upper(texts.trim(query));
      EntriesInRange(list, byLocal, locals);
      results := SearchPrefix(list, prefix, limit);
      results := SearchLocal(list, locals, prefix, results, limit);
      results := SearchName(texts, list, folded, query, results, limit);
      StagesCut(texts, list, locals, prefix, texts.fold(query), limit);
    }

    /** The airport at least distance within range that the search can see. */
    method Nearest(dist: Distance, cos: real -> real, lat: real, lon: real, maxDist: real) returns (r: Option<Airport>)
      requires Indexed() && forall a | a in list :: OnGlobe(a.latitude, a.longitude)
      requires Measures(dist, cos, lat, lon, list)
      ensures NearestOf(dist, BoxAt(cos, lat, lon, maxDist), list, r)
    {
      hide ConsiderAll, RowsMembers, NearestOf, Bounded, Measures, DistTo, Sorted, IcaoIndex, KeyIndex, LocalsOf, GridOf;
      var b := BoxAt(cos, lat, lon, maxDist);
      var airports := list;
      var d := i => DistTo(dist, b, airports, i);
      var best := Best(-1, maxDist);
      if b.Polar() {
        best := WalkCell(d, Positions(|list|), best);
        ScanIsNearest(dist, b, list, best);
      } else {
        best := WalkGrid(d, b, grid, best);
        BoxIsWideEnough(dist, cos, lat, lon, maxDist, list);
        WalkIsNearest(dist, b, list, grid, best);
      }
      return if best.idx < 0 then None else Some(list[best.idx]);
    }
  }

  lemma EntriesInRange(list: seq<Airport>, byLocal: map<string, int>, locals: seq<LocalEntry>)
    requires KeyIndex(AllLocalKeys(list), byLocal) && LocalsOf(byLocal, locals)
    ensures EntriesFit(list, locals)
  {
    forall e | e in locals ensures 0 <= e.idx < |list| && list[e.idx].localCode == e.code {
      assert Only(AllLocalKeys(list), e.idx, e.code);
    }
    forall i, j | 0 <= i < j < |locals| ensures locals[i].code != locals[j].code {
      assert Less(Code(locals[i]), Code(locals[j]));
      LessTotal(locals[i].code, locals[j].code);
    }
  }

  /** Cutting after each stage is cutting once at the end. */
  lemma StagesCut(t: Texts, list: seq<Airport>, locals: seq<LocalEntry>, prefix: string, q: string, limit: nat)
    ensures var p := Cut(PrefixHits(list, prefix), limit);
            var l := Cut(p + LocalHits(list, locals, prefix, Icaos(p)), limit);
            Cut(l + (if q == "" then [] else NameHits(t, list, q, Icaos(l))), limit) == Cut(AllHits(t, list, locals, prefix, q), limit)
  {
    hide PrefixHits, LocalHits, NameHits, Icaos;
    var p := PrefixHits(list, prefix);
    var codes := CodeHits(list, locals, prefix);
    var names := if q == "" then [] else NameHits(t, list, q, Icaos(codes));
    CutTwice(p, LocalHits(list, locals, prefix, Icaos(p)), limit);
    CutTwice(p, LocalHits(list, locals, prefix, Icaos(Cut(p, limit))), limit);
    CutTwice(codes, names, limit);
    var l := Cut(Cut(p, limit) + LocalHits(list, locals, prefix, Icaos(Cut(p, limit))), limit);
    assert l == Cut(codes, limit);
    CutTwice(codes, if q == "" then [] else NameHits(t, list, q, Icaos(l)), limit);
  }

  // --- Reloading ---------------------------------------------------------------------------------------------

  datatype ReloadResult = Loaded | Partial | NoSources | Suspect

  function OrEmpty(source: Option<Records>): Records { if source.Some? then source.value else map[] }

  function MergedFrom(oa: Option<Records>, mw: Option<Records>): Records {
    Merged(OrEmpty(oa), OrEmpty(mw), OrEmpty(oa).Keys + OrEmpty(mw).Keys)
  }

  /** At a place on the globe other than the one, 0 N 0 E, that stands for no place. */
  predicate Located(a: Airport) { OnGlobe(a.latitude, a.longitude) && (a.latitude, a.longitude) != (0.0, 0.0) }

  /** Loaded are exactly the codes that a source delivered with usable coordinates, one airport each. */
  lemma LoadedIff(oa: Option<Records>, mw: Option<Records>, list: seq<Airport>, code: string)
    requires (oa.Some? ==> Keyed(oa.value)) && (mw.Some? ==> Keyed(mw.value)) && ListOf(MergedFrom(oa, mw), list)
    ensures (exists i :: 0 <= i < |list| && list[i].icao == code)
       <==> || (oa.Some? && code in oa.value && Located(oa.value[code]))
            || (mw.Some? && code in mw.value && Located(mw.value[code]))
    ensures forall i, j | 0 <= i < j < |list| :: list[i].icao != list[j].icao
  {
    var m := MergedFrom(oa, mw);
    MergedKeyed(OrEmpty(oa), OrEmpty(mw));
    SortedNoRepeats(list);
    forall i | 0 <= i < |list| ensures list[i].icao in m {
      assert list[i] in list && list[i] in m.Values;
    }
    if code in m {
      assert m[code] in m.Values && m[code] in list;
      var i :| 0 <= i < |list| && list[i] == m[code];
      assert list[i].icao == code;
    }
    assert code in m <==> Usable(OrEmpty(oa), OrEmpty(mw), code);
  }

  /** The live snapshot, swapped as a whole. */
  class Database {
    const texts: Texts
    var current: Snapshot?

    constructor (texts: Texts)
      ensures this.texts == texts && current == null
    {
      this.texts, current := texts, null;
    }

    /** A reload with what each source delivered, None for a failed fetch. The live
        snapshot changes only when a source delivered and at least half as many
        airports remain. */
    method Reload(oa: Option<Records>, mw: Option<Records>) returns (r: ReloadResult)
      requires (oa.Some? ==> Keyed(oa.value)) && (mw.Some? ==> Keyed(mw.value))
      requires current != null ==> current.Indexed()
      modifies this
      ensures r.NoSources? <==> oa.None? && mw.None?
      ensures r.NoSources? || r.Suspect? ==> current == old(current)
      ensures r.Loaded? || r.Partial? ==> current != null && fresh(current) && current.Indexed()
      ensures r.Loaded? ==> oa.Some? && mw.Some?
      ensures r.Partial? ==> oa.None? || mw.None?
      ensures old(current) != null && current != null ==> 2 * |current.list| >= |old(current).list|
      ensures current != old(current) ==> current != null
      ensures current != null && current != old(current) ==>
                && ListOf(MergedFrom(oa, mw), current.list)
                && forall a | a in current.list :: ValidCoords(a)
      ensures r.Suspect? <==> !r.NoSources? && old(current) != null && 2 * |MergedFrom(oa, mw)| < |old(current).list|
    {
      if oa.None? && mw.None? { return NoSources; }
      var merged, stats := MergeSources(OrEmpty(oa), OrEmpty(mw));
      MergedKeyed(OrEmpty(oa), OrEmpty(mw));
      var next := new Snapshot(texts, merged);
      ListLength(merged, next.list);
      if current != null && 2 * |next.list| < |current.list| { return Suspect; }
      current := next;
      return if oa.None? || mw.None? then Partial else Loaded;
    }
  }

  lemma MergedKeyed(oa: Records, mw: Records)
    requires Keyed(oa) && Keyed(mw)
    ensures var m := Merged(oa, mw, oa.Keys + mw.Keys); Keyed(m) && forall a | a in m.Values :: ValidCoords(a)
  {
    var m := Merged(oa, mw, oa.Keys + mw.Keys);
    forall k | k in m ensures m[k].icao == k && ValidCoords(m[k]) {
      MergedRecord(oa, mw, k);
    }
  }
}
