// The airport snapshot: a sorted list and the indexes into it, each of which agrees
// with a plain scan of the list, and the searches that use them.

module AirportIndex {

  import opened Common
  import opened AirportMerge
  import opened AirportGrid
  import opened Ordering

  /** Text handling that the snapshot only calls: folding a name, its short key,
      upper-casing and trimming. */
  datatype Texts = Texts(fold: string -> string, short: string -> string, upper: string -> string, trim: string -> string)

  const AMBIGUOUS := -1

  datatype LocalEntry = LocalEntry(code: string, idx: int)

  function Icao(a: Airport): string { a.icao }
  function Code(e: LocalEntry): string { e.code }

  // --- Key indexes ----------------------------------------------------------------------

  /** The name keys of an airport: its folded name when that has several words, and its
      short form. */
  function NameKeys(t: Texts, a: Airport): set<string> {
    var f := t.fold(a.name);
    (if ' ' in f then {f} else {}) + (if t.short(f) != "" then {t.short(f)} else {})
  }

  function LocalKeys(a: Airport): set<string> { if a.localCode != "" then {a.localCode} else {} }

  ghost predicate Carries(keys: seq<set<string>>, i: int, k: string) { 0 <= i < |keys| && k in keys[i] }

  /** A key resolves to `i` exactly when `i` is its only carrier. */
  ghost predicate Only(keys: seq<set<string>>, i: int, k: string) {
    Carries(keys, i, k) && forall j | Carries(keys, j, k) :: j == i
  }

  ghost predicate Shared(keys: seq<set<string>>, k: string) {
    exists i, j :: i != j && Carries(keys, i, k) && Carries(keys, j, k)
  }

  /** The index agrees with a scan: it holds the carried keys, each with its only
      carrier or marked ambiguous. */
  ghost predicate KeyIndex(keys: seq<set<string>>, m: map<string, int>) {
    && (forall i, k | Carries(keys, i, k) :: k in m)
    && (forall k | k in m :: if m[k] == AMBIGUOUS then Shared(keys, k) else Only(keys, m[k], k))
  }

  /** A key is in the index exactly when it is carried, resolves to its only carrier,
      and is ambiguous exactly when it has several. */
  lemma KeyIndexAgrees(keys: seq<set<string>>, m: map<string, int>, k: string)
    requires KeyIndex(keys, m)
    ensures k in m <==> exists i :: Carries(keys, i, k)
    ensures forall i | i >= 0 :: k in m && m[k] == i <==> Only(keys, i, k)
    ensures k in m && m[k] == AMBIGUOUS <==> Shared(keys, k)
  {
    if k in m {
      if m[k] == AMBIGUOUS {
        var i, j :| i != j && Carries(keys, i, k) && Carries(keys, j, k);
      } else {
        assert Carries(keys, m[k], k);
      }
    }
  }

  /** So the index does not depend on the order in which it was built. */
  lemma KeyIndexUnique(keys: seq<set<string>>, m: map<string, int>, m': map<string, int>)
    requires KeyIndex(keys, m) && KeyIndex(keys, m')
    ensures m == m'
  {
    forall k ensures k in m <==> k in m' {
      KeyIndexAgrees(keys, m, k);
      KeyIndexAgrees(keys, m', k);
    }
    forall k | k in m ensures m[k] == m'[k] {
      KeyIndexAgrees(keys, m, k);
      KeyIndexAgrees(keys, m', k);
    }
  }

  /** addName: a key met again for another airport becomes ambiguous. */
  function AddKey(m: map<string, int>, k: string, i: int): map<string, int> {
    if k in m && m[k] != i then m[k := AMBIGUOUS] else m[k := i]
  }

  lemma NoNewKeys(keys: seq<set<string>>, m: map<string, int>)
    requires KeyIndex(keys, m)
    ensures KeyIndex(keys + [{}], m)
  {
    var more := keys + [{}];
    forall i, k ensures Carries(more, i, k) <==> Carries(keys, i, k) {
    }
    forall k | k in m ensures if m[k] == AMBIGUOUS then Shared(more, k) else Only(more, m[k], k) {
      if m[k] == AMBIGUOUS {
        var i, j :| i != j && Carries(keys, i, k) && Carries(keys, j, k);
        assert Carries(more, i, k) && Carries(more, j, k);
      }
    }
  }

  /** One more key for the last airport. */
  lemma AddKeyExtends(keys: seq<set<string>>, last: set<string>, m: map<string, int>, k: string)
    requires KeyIndex(keys + [last], m)
    ensures KeyIndex(keys + [last + {k}], AddKey(m, k, |keys|))
  {
    var before, after, m' := keys + [last], keys + [last + {k}], AddKey(m, k, |keys|);
    forall i, x ensures Carries(after, i, x) <==> Carries(before, i, x) || (i == |keys| && x == k) {
    }
    hide Carries;
    forall x | x in m' ensures if m'[x] == AMBIGUOUS then Shared(after, x) else Only(after, m'[x], x) {
      KeyIndexAgrees(before, m, x);
      if x in m && m[x] == AMBIGUOUS {
        var i, j :| i != j && Carries(before, i, x) && Carries(before, j, x);
        assert Carries(after, i, x) && Carries(after, j, x);
      } else if x == k && x in m && m[x] != |keys| {
        assert Carries(before, m[x], x);
        assert Carries(after, m[x], x) && Carries(after, |keys|, x);
      }
    }
  }

  // --- The indexes of a list -----------------------------------------------------------------

  ghost function AllNameKeys(t: Texts, list: seq<Airport>): seq<set<string>> { seq(|list|, i requires 0 <= i < |list| => NameKeys(t, list[i])) }
  ghost function AllLocalKeys(list: seq<Airport>): seq<set<string>> { seq(|list|, i requires 0 <= i < |list| => LocalKeys(list[i])) }

  /** The list holds the records, sorted by ICAO code. */
  ghost predicate ListOf(records: Records, list: seq<Airport>) {
    Sorted(Icao, list) && forall a :: a in list <==> a in records.Values
  }

  ghost predicate IcaoIndex(list: seq<Airport>, m: map<string, int>) {
    && (forall i | 0 <= i < |list| :: list[i].icao in m && m[list[i].icao] == i)
    && (forall k | k in m :: 0 <= m[k] < |list| && list[m[k]].icao == k)
  }

  /** The unambiguous local codes in code order. */
  ghost predicate LocalsOf(byLocal: map<string, int>, locals: seq<LocalEntry>) {
    && Sorted(Code, locals)
    && forall e :: e in locals <==> e.code in byLocal && byLocal[e.code] == e.idx && e.idx != AMBIGUOUS
  }

  ghost predicate CellHolds(list: seq<Airport>, c: Cell, members: seq<int>) {
    Ascending(members) && members != [] && forall i | i in members :: 0 <= i < |list| && HomeCell(list[i]) == c
  }

  /** Each cell lists, in order, the airports that fall into it. */
  ghost predicate GridOf(list: seq<Airport>, grid: map<Cell, seq<int>>) {
    && (forall i | 0 <= i < |list| :: HomeCell(list[i]) in grid && i in grid[HomeCell(list[i])])
    && (forall c | c in grid :: CellHolds(list, c, grid[c]))
  }

  function HomeCell(a: Airport): Cell { CellOf(a.latitude, a.longitude) }

  predicate Keyed(records: Records) { forall k | k in records :: records[k].icao == k }

  /** The list and the local entries are determined by the records. */
  lemma ListUnique(records: Records, list: seq<Airport>, list': seq<Airport>)
    requires ListOf(records, list) && ListOf(records, list')
    ensures list == list'
  {
    SortedUnique(Icao, list, list');
  }

  lemma LocalsUnique(byLocal: map<string, int>, a: seq<LocalEntry>, b: seq<LocalEntry>)
    requires LocalsOf(byLocal, a) && LocalsOf(byLocal, b)
    ensures a == b
  {
    SortedUnique(Code, a, b);
  }

  lemma IcaoIndexUnique(list: seq<Airport>, m: map<string, int>, m': map<string, int>)
    requires IcaoIndex(list, m) && IcaoIndex(list, m')
    ensures m == m'
  {
    assert forall k | k in m :: list[m[k]].icao == k && k in m';
    assert forall k | k in m' :: list[m'[k]].icao == k && k in m;
  }

  lemma GridUnique(list: seq<Airport>, g: map<Cell, seq<int>>, g': map<Cell, seq<int>>)
    requires GridOf(list, g) && GridOf(list, g')
    ensures g == g'
  {
    GridCells(list, g, g');
    GridCells(list, g', g);
    forall c | c in g ensures g[c] == g'[c] {
      forall i ensures i in g[c] <==> i in g'[c] {
      }
      AscendingUnique(g[c], g'[c]);
    }
  }

  lemma GridCells(list: seq<Airport>, g: map<Cell, seq<int>>, g': map<Cell, seq<int>>)
    requires GridOf(list, g) && GridOf(list, g')
    ensures forall c | c in g :: c in g'
  {
    forall c | c in g ensures c in g' {
      assert g[c][0] in g[c];
    }
  }

  /** All that a snapshot holds is determined by the records: no index depends on the order in
      which records, keys or cells were visited. */
  lemma SnapshotUnique(t: Texts, records: Records, list: seq<Airport>, x: Indexes, locals: seq<LocalEntry>,
                       list': seq<Airport>, x': Indexes, locals': seq<LocalEntry>)
    requires ListOf(records, list) && IndexesOf(t, list, x) && LocalsOf(x.byLocal, locals)
    requires ListOf(records, list') && IndexesOf(t, list', x') && LocalsOf(x'.byLocal, locals')
    ensures list == list' && x == x' && locals == locals'
  {
    ListUnique(records, list, list');
    IcaoIndexUnique(list, x.byIcao, x'.byIcao);
    KeyIndexUnique(AllNameKeys(t, list), x.byName, x'.byName);
    KeyIndexUnique(AllLocalKeys(list), x.byLocal, x'.byLocal);
    GridUnique(list, x.grid, x'.grid);
    LocalsUnique(x.byLocal, locals, locals');
    assert x.folded == x'.folded;
  }

  /** The list has one entry for each record. */
  lemma ListLength(records: Records, list: seq<Airport>)
    requires Keyed(records) && ListOf(records, list)
    ensures |list| == |records|
  {
    forall i, j | 0 <= i < j < |list| ensures list[i].icao != list[j].icao {
      assert Less(Icao(list[i]), Icao(list[j]));
      LessTotal(list[i].icao, list[j].icao);
    }
    CodesCount(list);
    var codes := set a | a in list :: a.icao;
    forall k ensures k in codes <==> k in records {
      if k in records { assert records[k] in records.Values; }
      if k in codes { var a :| a in list && a.icao == k; assert a in records.Values; }
    }
    assert codes == records.Keys;
  }

  lemma {:induction false} CodesCount(list: seq<Airport>)
    requires forall i, j | 0 <= i < j < |list| :: list[i].icao != list[j].icao
    ensures |set a | a in list :: a.icao| == |list|
  {
    if list != [] {
      var init, last := list[..|list| - 1], list[|list| - 1];
      CodesCount(init);
      var codes := set a | a in init :: a.icao;
      assert list == init + [last];
      assert (set a | a in list :: a.icao) == codes + {last.icao};
    }
  }

  // --- Building ---------------------------------------------------------------------------------

  method CollectRecords(records: Records) returns (list: seq<Airport>)
    requires Keyed(records)
    ensures DistinctKeys(Icao, list) && forall a :: a in list <==> a in records.Values
  {
    list := [];
    var todo := records.Keys;
    while todo != {}
      invariant todo <= records.Keys
      invariant DistinctKeys(Icao, list)
      invariant forall a :: a in list <==> a in records.Values && a.icao !in todo
    {
      var k :| k in todo;
      todo := todo - {k};
      list := list + [records[k]];
    }
  }

  method SortedList(records: Records) returns (list: seq<Airport>)
    requires Keyed(records)
    ensures ListOf(records, list)
  {
    var collected := CollectRecords(records);
    list := Sort(ByKey(Icao), collected);
    SortSorts(Icao, collected);
    SameElements(list, collected);
  }

  lemma IcaoStep(list: seq<Airport>, m: map<string, int>, a: Airport)
    requires IcaoIndex(list, m) && forall b | b in list :: b.icao != a.icao
    ensures IcaoIndex(list + [a], m[a.icao := |list|])
  {
  }

  function AddNames(t: Texts, m: map<string, int>, a: Airport, i: int): map<string, int> {
    var f := t.fold(a.name);
    var m1 := if ' ' in f then AddName(m, f, i) else m;
    AddName(m1, t.short(f), i)
  }

  function AddName(m: map<string, int>, k: string, i: int): map<string, int> { if k == "" then m else AddKey(m, k, i) }

  lemma NameStep(t: Texts, list: seq<Airport>, m: map<string, int>, a: Airport)
    requires KeyIndex(AllNameKeys(t, list), m)
    ensures KeyIndex(AllNameKeys(t, list + [a]), AddNames(t, m, a, |list|))
  {
    hide KeyIndex, AddKey;
    var keys, f := AllNameKeys(t, list), t.fold(a.name);
    NoNewKeys(keys, m);
    if ' ' in f {
      AddKeyExtends(keys, {}, m, f);
      assert {} + {f} == {f};
    }
    var m1, first: set<string> := if ' ' in f then AddKey(m, f, |list|) else m, if ' ' in f then {f} else {};
    if t.short(f) != "" { AddKeyExtends(keys, first, m1, t.short(f)); }
    assert NameKeys(t, a) == if t.short(f) != "" then first + {t.short(f)} else first;
    assert AllNameKeys(t, list + [a]) == keys + [NameKeys(t, a)];
  }

  function AddLocal(m: map<string, int>, a: Airport, i: int): map<string, int> {
    if a.localCode == "" then m
    else if a.localCode in m then m[a.localCode := AMBIGUOUS]
    else m[a.localCode := i]
  }

  lemma LocalStep(list: seq<Airport>, m: map<string, int>, a: Airport)
    requires KeyIndex(AllLocalKeys(list), m)
    ensures KeyIndex(AllLocalKeys(list + [a]), AddLocal(m, a, |list|))
  {
    var keys := AllLocalKeys(list);
    assert a.localCode in m ==> m[a.localCode] < |list|;
    hide KeyIndex;
    NoNewKeys(keys, m);
    if a.localCode != "" {
      AddKeyExtends(keys, {}, m, a.localCode);
      assert {} + {a.localCode} == {a.localCode};
    }
    assert AllLocalKeys(list + [a]) == keys + [LocalKeys(a)];
  }

  function AddToGrid(g: map<Cell, seq<int>>, c: Cell, i: int): map<Cell, seq<int>> {
    g[c := (if c in g then g[c] else []) + [i]]
  }

  lemma GridStep(list: seq<Airport>, g: map<Cell, seq<int>>, a: Airport)
    requires GridOf(list, g)
    ensures GridOf(list + [a], AddToGrid(g, HomeCell(a), |list|))
  {
    var g', list' := AddToGrid(g, HomeCell(a), |list|), list + [a];
    forall c | c in g' ensures CellHolds(list', c, g'[c]) {
      if c in g {
        assert CellHolds(list, c, g[c]);
        assert forall j | 0 <= j < |g[c]| :: g[c][j] in g[c];
      }
    }
    forall i | 0 <= i < |list'| ensures HomeCell(list'[i]) in g' && i in g'[HomeCell(list'[i])] {
      if i < |list| { assert i in g[HomeCell(list[i])]; }
    }
  }

  /** What the indexes of a list are. */
  datatype Indexes = Indexes(byIcao: map<string, int>, byName: map<string, int>, folded: seq<string>, byLocal: map<string, int>, grid: map<Cell, seq<int>>)

  ghost predicate IndexesOf(t: Texts, list: seq<Airport>, x: Indexes) {
    && IcaoIndex(list, x.byIcao) && KeyIndex(AllNameKeys(t, list), x.byName) && KeyIndex(AllLocalKeys(list), x.byLocal)
    && GridOf(list, x.grid)
    && |x.folded| == |list| && forall i | 0 <= i < |list| :: x.folded[i] == t.fold(list[i].name)
  }

  method IndexOne(t: Texts, list: seq<Airport>, a: Airport, x: Indexes) returns (x': Indexes)
    requires IndexesOf(t, list, x) && forall b | b in list :: b.icao != a.icao
    ensures IndexesOf(t, list + [a], x')
  {
    IcaoStep(list, x.byIcao, a);
    NameStep(t, list, x.byName, a);
    LocalStep(list, x.byLocal, a);
    GridStep(list, x.grid, a);
    hide IcaoIndex, KeyIndex, GridOf, AllNameKeys, AllLocalKeys;
    x' := Indexes(x.byIcao[a.icao := |list|], AddNames(t, x.byName, a, |list|), x.folded + [t.fold(a.name)],
                  AddLocal(x.byLocal, a, |list|), AddToGrid(x.grid, HomeCell(a), |list|));
  }

  lemma NothingIndexed(t: Texts, x: Indexes)
    requires x == Indexes(map[], map[], [], map[], map[])
    ensures IndexesOf(t, [], x)
  {
  }

  method IndexAll(t: Texts, list: seq<Airport>) returns (x: Indexes)
    requires Sorted(Icao, list)
    ensures IndexesOf(t, list, x)
  {
    hide IndexesOf;
    x := Indexes(map[], map[], [], map[], map[]);
    NothingIndexed(t, x);
    assert list[..0] == [];
    for i := 0 to |list|
      invariant IndexesOf(t, list[..i], x)
    {
      forall b | b in list[..i] ensures b.icao != list[i].icao {
        var j :| 0 <= j < i && list[j] == b;
        assert Less(Icao(list[j]), Icao(list[i]));
        LessTotal(b.icao, list[i].icao);
      }
      x := IndexOne(t, list[..i], list[i], x);
      assert list[..i] + [list[i]] == list[..i + 1];
    }
    assert list[..|list|] == list;
  }

  method LocalEntries(byLocal: map<string, int>) returns (locals: seq<LocalEntry>)
    ensures LocalsOf(byLocal, locals)
  {
    var found: seq<LocalEntry> := [];
    var todo := byLocal.Keys;
    while todo != {}
      invariant todo <= byLocal.Keys && DistinctKeys(Code, found)
      invariant forall e :: e in found <==> e.code in byLocal && e.code !in todo && byLocal[e.code] == e.idx && e.idx != AMBIGUOUS
    {
      var k :| k in todo;
      todo := todo - {k};
      if byLocal[k] != AMBIGUOUS { found := found + [LocalEntry(k, byLocal[k])]; }
    }
    locals := Sort(ByKey(Code), found);
    SortSorts(Code, found);
    SameElements(locals, found);
  }
}
