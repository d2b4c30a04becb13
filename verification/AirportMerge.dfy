// Merging the two airport datasets into the records that back every lookup.

module AirportMerge {

  datatype Airport = Airport(
    icao: string, name: string, latitude: real, longitude: real, elevation: int, country: string,
    iata: string, city: string, localCode: string, timezone: string, source: string)

  type Records = map<string, Airport>

  const SOURCE_MERGED := "merged"

  predicate ValidCoords(a: Airport) {
    && -90.0 <= a.latitude <= 90.0 && -180.0 <= a.longitude <= 180.0
    && (a.latitude != 0.0 || a.longitude != 0.0)
  }

  function Worth(text: string, points: nat): nat { if text != "" then points else 0 }

  /** How complete a record is; unusable coordinates score below zero. */
  function Score(a: Airport): (s: int)
    ensures s < 0 <==> !ValidCoords(a)
  {
    if !ValidCoords(a) then -1
    else
      Worth(a.name, 4) + Worth(a.country, 2) + Worth(a.iata, 2) + Worth(a.city, 1) + Worth(a.timezone, 1)
      + (if a.elevation != 0 then 1 else 0)
  }

  /** What each field is worth: filling in one that is missing raises the score of a usable
      record by its weight, and nothing else counts. */
  lemma ScoreWeights(a: Airport, text: string, n: int)
    requires ValidCoords(a) && text != "" && n != 0
    ensures a.name == "" ==> Score(a.(name := text)) == Score(a) + 4
    ensures a.country == "" ==> Score(a.(country := text)) == Score(a) + 2
    ensures a.iata == "" ==> Score(a.(iata := text)) == Score(a) + 2
    ensures a.city == "" ==> Score(a.(city := text)) == Score(a) + 1
    ensures a.timezone == "" ==> Score(a.(timezone := text)) == Score(a) + 1
    ensures a.elevation == 0 ==> Score(a.(elevation := n)) == Score(a) + 1
    ensures Score(a.(icao := text, localCode := text, source := text)) == Score(a)
    ensures Score(a.(name := "", country := "", iata := "", city := "", timezone := "", elevation := 0)) == 0
  {
  }

  function Or(text: string, other: string): string { if text == "" then other else text }

  /** Nothing known is replaced, and nothing is missing that either side knows. */
  predicate Filled(base: string, other: string, result: string) {
    (base != "" ==> result == base) && (result == "" ==> other == "") && (result == base || result == other)
  }

  /** `base` enriched with any field it lacks; coordinates are never mixed. */
  function FillGaps(base: Airport, other: Airport): (a: Airport)
    ensures a.icao == base.icao && a.latitude == base.latitude && a.longitude == base.longitude
    ensures Filled(base.name, other.name, a.name) && Filled(base.country, other.country, a.country)
    ensures Filled(base.iata, other.iata, a.iata) && Filled(base.city, other.city, a.city)
    ensures Filled(base.localCode, other.localCode, a.localCode) && Filled(base.timezone, other.timezone, a.timezone)
    ensures (base.elevation != 0 ==> a.elevation == base.elevation) && (base.elevation == 0 ==> a.elevation == other.elevation)
    ensures a.source == SOURCE_MERGED
    ensures ValidCoords(base) ==> Score(a) >= Score(base) && (ValidCoords(other) ==> Score(a) >= Score(other))
  {
    base.(name := Or(base.name, other.name), country := Or(base.country, other.country), iata := Or(base.iata, other.iata),
          city := Or(base.city, other.city), localCode := Or(base.localCode, other.localCode),
          timezone := Or(base.timezone, other.timezone),
          elevation := if base.elevation == 0 then other.elevation else base.elevation, source := SOURCE_MERGED)
  }

  datatype Stats = Stats(onlyOurAirports: nat, onlyMwgg: nat, both: nat, preferOurAirports: nat, preferMwgg: nat, dropped: nat)

  /** A code that some source describes with usable coordinates. */
  predicate Usable(oa: Records, mw: Records, k: string) {
    (k in oa && ValidCoords(oa[k])) || (k in mw && ValidCoords(mw[k]))
  }

  /** The record kept for a usable code. */
  function Chosen(oa: Records, mw: Records, k: string): Airport
    requires Usable(oa, mw, k)
  {
    if k !in mw then oa[k]
    else if k !in oa then mw[k]
    else if Score(mw[k]) > Score(oa[k]) then FillGaps(mw[k], oa[k])
    else FillGaps(oa[k], mw[k])
  }

  /** The merge of the codes in `keys`. */
  function Merged(oa: Records, mw: Records, keys: set<string>): Records {
    map k | k in keys && Usable(oa, mw, k) :: Chosen(oa, mw, k)
  }

  /** What becomes of a code. */
  datatype Kind = OnlyOurAirports | OnlyMwgg | PreferOurAirports | PreferMwgg | Dropped

  function KindOf(oa: Records, mw: Records, k: string): Kind {
    if !Usable(oa, mw, k) then Dropped
    else if k !in mw then OnlyOurAirports
    else if k !in oa then OnlyMwgg
    else if Score(mw[k]) > Score(oa[k]) then PreferMwgg
    else PreferOurAirports
  }

  /** How a code is counted, by what the sources say: the more complete record is preferred, OurAirports on a
      tie, and a code without usable coordinates anywhere is dropped. */
  lemma KindIff(oa: Records, mw: Records, k: string)
    requires k in oa || k in mw
    ensures var kind, usable := KindOf(oa, mw, k), (k in oa && ValidCoords(oa[k])) || (k in mw && ValidCoords(mw[k]));
            && (kind == Dropped <==> !usable)
            && (kind == OnlyOurAirports <==> usable && k !in mw)
            && (kind == OnlyMwgg <==> usable && k !in oa)
            && (kind == PreferMwgg <==> usable && k in oa && k in mw && Score(mw[k]) > Score(oa[k]))
            && (kind == PreferOurAirports <==> usable && k in oa && k in mw && Score(mw[k]) <= Score(oa[k]))
  {
  }

  ghost function OfKind(oa: Records, mw: Records, keys: set<string>, kind: Kind): set<string> {
    set k | k in keys && KindOf(oa, mw, k) == kind
  }

  /** The counts that a merge of the codes in `keys` reports. */
  ghost function Counts(oa: Records, mw: Records, keys: set<string>): Stats {
    var a, b := |OfKind(oa, mw, keys, PreferOurAirports)|, |OfKind(oa, mw, keys, PreferMwgg)|;
    Stats(|OfKind(oa, mw, keys, OnlyOurAirports)|, |OfKind(oa, mw, keys, OnlyMwgg)|, a + b, a, b, |OfKind(oa, mw, keys, Dropped)|)
  }

  /** How one more code of a kind changes the counts. */
  function Tally(kind: Kind, s: Stats): Stats {
    match kind
    case OnlyOurAirports => s.(onlyOurAirports := s.onlyOurAirports + 1)
    case OnlyMwgg => s.(onlyMwgg := s.onlyMwgg + 1)
    case PreferOurAirports => s.(both := s.both + 1, preferOurAirports := s.preferOurAirports + 1)
    case PreferMwgg => s.(both := s.both + 1, preferMwgg := s.preferMwgg + 1)
    case Dropped => s.(dropped := s.dropped + 1)
  }

  lemma OfKindGrows(oa: Records, mw: Records, keys: set<string>, k: string, kind: Kind)
    requires k !in keys
    ensures |OfKind(oa, mw, keys + {k}, kind)| == |OfKind(oa, mw, keys, kind)| + if KindOf(oa, mw, k) == kind then 1 else 0
  {
    hide KindOf;
    assert OfKind(oa, mw, keys + {k}, kind)
        == if KindOf(oa, mw, k) == kind then OfKind(oa, mw, keys, kind) + {k} else OfKind(oa, mw, keys, kind);
  }

  lemma CountsGrow(oa: Records, mw: Records, keys: set<string>, k: string)
    requires k !in keys
    ensures Counts(oa, mw, keys + {k}) == Tally(KindOf(oa, mw, k), Counts(oa, mw, keys))
    ensures Merged(oa, mw, keys + {k})
         == if Usable(oa, mw, k) then Merged(oa, mw, keys)[k := Chosen(oa, mw, k)] else Merged(oa, mw, keys)
  {
    hide OfKind, KindOf, Usable, Chosen;
    OfKindGrows(oa, mw, keys, k, OnlyOurAirports);
    OfKindGrows(oa, mw, keys, k, OnlyMwgg);
    OfKindGrows(oa, mw, keys, k, PreferOurAirports);
    OfKindGrows(oa, mw, keys, k, PreferMwgg);
    OfKindGrows(oa, mw, keys, k, Dropped);
  }

  /** Every code is counted once, and merged or dropped. */
  lemma {:induction false} CountsConserve(oa: Records, mw: Records, keys: set<string>)
    ensures var s := Counts(oa, mw, keys);
      && s.onlyOurAirports + s.onlyMwgg + s.both + s.dropped == |keys|
      && s.onlyOurAirports + s.onlyMwgg + s.both == |Merged(oa, mw, keys)|
      && s.preferOurAirports + s.preferMwgg == s.both
  {
    hide Counts, KindOf, Usable, Merged;
    if keys == {} {
      NothingMerged(oa, mw);
    } else {
      var k :| k in keys;
      var rest := keys - {k};
      assert rest + {k} == keys;
      CountsConserve(oa, mw, rest);
      CountsGrow(oa, mw, rest, k);
      MergedGrows(oa, mw, rest, k);
      UsableKind(oa, mw, k);
    }
  }

  lemma MergedGrows(oa: Records, mw: Records, keys: set<string>, k: string)
    requires k !in keys
    ensures |Merged(oa, mw, keys + {k})| == |Merged(oa, mw, keys)| + if Usable(oa, mw, k) then 1 else 0
  {
    hide Usable, Chosen;
    var before, after := Merged(oa, mw, keys).Keys, Merged(oa, mw, keys + {k}).Keys;
    assert after == if Usable(oa, mw, k) then before + {k} else before;
  }

  lemma UsableKind(oa: Records, mw: Records, k: string)
    ensures Usable(oa, mw, k) <==> KindOf(oa, mw, k) != Dropped
  {
  }

  /** What the merge promises of each record: usable coordinates, taken as a pair from the
      more complete record, the first source's on a tie, and a record at least as complete
      as every one of that code. */
  lemma MergedRecord(oa: Records, mw: Records, k: string)
    requires Usable(oa, mw, k)
    ensures var a := Chosen(oa, mw, k);
      && ValidCoords(a)
      && (var base := if k in mw && (k !in oa || Score(mw[k]) > Score(oa[k])) then mw[k] else oa[k];
          (a.icao, a.latitude, a.longitude) == (base.icao, base.latitude, base.longitude))
      && (k in oa ==> Score(a) >= Score(oa[k])) && (k in mw ==> Score(a) >= Score(mw[k]))
  {
  }

  method MergeSources(oa: Records, mw: Records) returns (merged: Records, stats: Stats)
    ensures merged == Merged(oa, mw, oa.Keys + mw.Keys)
    ensures stats == Counts(oa, mw, oa.Keys + mw.Keys)
  {
    hide Counts, Merged, Chosen, Score, KindOf, Usable;
    stats := Stats(0, 0, 0, 0, 0, 0);
    merged := map[];
    NothingMerged(oa, mw);
    var todo := oa.Keys;
    assert oa.Keys - todo == {};
    while todo != {}
      invariant todo <= oa.Keys
      invariant merged == Merged(oa, mw, oa.Keys - todo) && stats == Counts(oa, mw, oa.Keys - todo)
    {
      var k :| k in todo;
      CountsGrow(oa, mw, oa.Keys - todo, k);
      assert oa.Keys - todo + {k} == oa.Keys - (todo - {k});
      merged, stats := MergeOne(oa, mw, k, merged, stats);
      todo := todo - {k};
    }
    assert oa.Keys - todo == oa.Keys;
    merged, stats := MergeRest(oa, mw, merged, stats);
  }

  /** The loop over the second source. */
  method MergeRest(oa: Records, mw: Records, merged: Records, stats: Stats) returns (merged': Records, stats': Stats)
    requires merged == Merged(oa, mw, oa.Keys) && stats == Counts(oa, mw, oa.Keys)
    ensures merged' == Merged(oa, mw, oa.Keys + mw.Keys) && stats' == Counts(oa, mw, oa.Keys + mw.Keys)
  {
    hide Counts, Merged, Chosen, Score, KindOf, Usable;
    merged', stats' := merged, stats;
    var all, todo := oa.Keys + mw.Keys, mw.Keys - oa.Keys;
    assert all - todo == oa.Keys;
    while todo != {}
      invariant todo <= mw.Keys - oa.Keys
      invariant merged' == Merged(oa, mw, all - todo) && stats' == Counts(oa, mw, all - todo)
    {
      var k :| k in todo;
      CountsGrow(oa, mw, all - todo, k);
      OnlyMwggKind(oa, mw, k);
      assert all - todo + {k} == all - (todo - {k});
      if Score(mw[k]) < 0 {
        stats' := stats'.(dropped := stats'.dropped + 1);
      } else {
        stats' := stats'.(onlyMwgg := stats'.onlyMwgg + 1);
        merged' := merged'[k := mw[k]];
      }
      todo := todo - {k};
    }
    assert all - todo == all;
  }

  lemma NothingMerged(oa: Records, mw: Records)
    ensures Counts(oa, mw, {}) == Stats(0, 0, 0, 0, 0, 0) && Merged(oa, mw, {}) == map[]
  {
  }

  /** A code that only the second source has. */
  lemma OnlyMwggKind(oa: Records, mw: Records, k: string)
    requires k in mw && k !in oa
    ensures KindOf(oa, mw, k) == if Score(mw[k]) < 0 then Dropped else OnlyMwgg
    ensures Score(mw[k]) >= 0 ==> Usable(oa, mw, k) && Chosen(oa, mw, k) == mw[k]
    ensures Score(mw[k]) < 0 ==> !Usable(oa, mw, k)
  {
  }

  /** The body of the loop over the first source. */
  method MergeOne(oa: Records, mw: Records, k: string, merged: Records, stats: Stats) returns (merged': Records, stats': Stats)
    requires k in oa
    ensures merged' == if Usable(oa, mw, k) then merged[k := Chosen(oa, mw, k)] else merged
    ensures stats' == Tally(KindOf(oa, mw, k), stats)
  {
    merged', stats' := merged, stats;
    if k !in mw {
      if Score(oa[k]) < 0 {
        stats' := stats'.(dropped := stats.dropped + 1);
        return;
      }
      stats' := stats'.(onlyOurAirports := stats.onlyOurAirports + 1);
      merged' := merged'[k := oa[k]];
      return;
    }
    if Score(oa[k]) < 0 && Score(mw[k]) < 0 {
      stats' := stats'.(dropped := stats.dropped + 1);
      return;
    }
    var base, other;
    if Score(mw[k]) > Score(oa[k]) {
      base, other := mw[k], oa[k];
      stats' := stats'.(preferMwgg := stats.preferMwgg + 1);
    } else {
      base, other := oa[k], mw[k];
      stats' := stats'.(preferOurAirports := stats.preferOurAirports + 1);
    }
    stats' := stats'.(both := stats.both + 1);
    merged' := merged'[k := FillGaps(base, other)];
  }
}
