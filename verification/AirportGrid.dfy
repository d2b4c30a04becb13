// The one-degree grid behind the nearest-airport search: which cells a search box
// visits, and why that misses no airport in range.

module AirportGrid {

  const POLAR_COS_LIMIT := 0.01

  datatype Cell = Cell(lat: int, lon: int)

  function CellOf(lat: real, lon: real): Cell { Cell(lat.Floor, lon.Floor) }

  function Abs(x: real): real { if x < 0.0 then -x else x }

  function Ceil(x: real): int { -((-x).Floor) }

  /** The remainder with the sign of the dividend, as the source's `%` computes it. */
  function TruncMod(a: int, b: int): int
    requires b > 0
  {
    if a >= 0 then a % b else -((-a) % b)
  }

  /** Longitude cells wrap: cell -181 is cell 179. */
  function WrapCell(c: int): int { TruncMod(TruncMod(c + 180, 360) + 360, 360) - 180 }

  lemma WrapIsResidue(c: int)
    ensures -180 <= WrapCell(c) <= 179
    ensures WrapCell(c) == (c + 180) % 360 - 180
  {
    var x := c + 180;
    if x < 0 {
      var q, m := (-x) / 360, (-x) % 360;
      assert x == -360 * q - m;
      if m == 0 { ModShift(0, -q); } else { ModShift(360 - m, -q - 1); }
    }
  }

  /** Wrapping lands on `cell` exactly when the two differ by whole turns. */
  lemma WrapIff(c: int, cell: int)
    requires -180 <= cell <= 179
    ensures WrapCell(c) == cell <==> (c - cell) % 360 == 0
  {
    WrapIsResidue(c);
    if (c - cell) % 360 == 0 {
      var n := (c - cell) / 360;
      assert c + 180 == cell + 180 + 360 * n;
      ModShift(cell + 180, n);
    }
  }

  lemma ModShift(a: int, n: int)
    requires 0 <= a < 360
    ensures (a + 360 * n) % 360 == a
  {
  }

  /** The shorter way round between two longitudes. */
  function WrappedDelta(x: real): real {
    var r := x - 360.0 * (x / 360.0).Floor as real;
    if r <= 180.0 then r else 360.0 - r
  }

  /** Some whole number of turns brings the difference down to its wrapped size. */
  lemma WrappedTurns(x: real) returns (n: int)
    ensures Abs(x - 360.0 * n as real) == WrappedDelta(x)
  {
    var f := (x / 360.0).Floor;
    var r := x - 360.0 * f as real;
    assert 0.0 <= r < 360.0;
    n := if r <= 180.0 then f else f + 1;
    assert (f + 1) as real == f as real + 1.0;
    assert Abs(x - 360.0 * n as real) == WrappedDelta(x);
  }

  /** Points within `span` of each other lie at most ceil(span) cells apart. */
  lemma CellsWithin(x: real, y: real, span: real)
    requires Abs(x - y) <= span
    ensures -Ceil(span) <= x.Floor - y.Floor <= Ceil(span)
  {
    var d := x.Floor - y.Floor;
    assert d as real == x.Floor as real - y.Floor as real;
    assert -Ceil(span) as real <= -span;
  }

  lemma FloorTurns(x: real, n: int)
    ensures (x + 360.0 * n as real).Floor == x.Floor + 360 * n
  {
    assert (360 * n) as real == 360.0 * n as real;
  }

  // --- The search box ----------------------------------------------------------------

  /** The parameters of one search: where, how far, and the cosine at the box's
      highest latitude. */
  datatype Box = Box(lat: real, lon: real, maxDist: real, cosLat: real) {
    function SpanDeg(): real { maxDist / 60.0 }
    predicate Polar() { cosLat < POLAR_COS_LIMIT }
    function LatCells(): int { Ceil(SpanDeg()) + 1 }
    function LonCells(): int
      requires !Polar()
    {
      var n := Ceil(SpanDeg() / cosLat) + 1;
      if n >= 180 then 180 else n
    }
    /** The cell at offset (dLat, dLon) is looked at. */
    predicate Visits(dLat: int, dLon: int)
      requires !Polar()
    {
      -LatCells() <= dLat <= LatCells() && -90 <= lat.Floor + dLat <= 90 && -LonCells() <= dLon <= LonCells()
    }
    function CellAt(dLat: int, dLon: int): Cell {
      Cell(lat.Floor + dLat, WrapCell(lon.Floor + dLon))
    }
  }

  function MaxAbsLat(lat: real, maxDist: real): real {
    var reach := Abs(lat) + maxDist / 60.0;
    if reach <= 90.0 then reach else 90.0
  }

  /** A place no farther than the box reaches, in both coordinates. */
  predicate InBox(b: Box, lat: real, lon: real) {
    60.0 * Abs(lat - b.lat) <= b.maxDist && 60.0 * WrappedDelta(lon - b.lon) * b.cosLat <= b.maxDist
  }

  predicate OnGlobe(lat: real, lon: real) { -90.0 <= lat <= 90.0 && -180.0 <= lon <= 180.0 }

  lemma LonWithinSpan(b: Box, lon: real, delta: real)
    requires !b.Polar() && 60.0 * delta * b.cosLat <= b.maxDist
    ensures delta <= b.SpanDeg() / b.cosLat
  {
    assert delta * b.cosLat <= b.SpanDeg();
    DivideBy(delta, b.cosLat, b.SpanDeg());
  }

  lemma DivideBy(x: real, c: real, y: real)
    requires c > 0.0 && x * c <= y
    ensures x <= y / c
  {
    assert y / c * c == y;
  }

  /** Some offset within the span wraps to `cell`, once `cell` is within the unclamped
      span of the base, give or take whole turns. */
  lemma OffsetWithin(base: int, cell: int, n: int, cells: int) returns (d: int)
    requires -180 <= cell <= 179 && -cells <= cell - (base + 360 * n) <= cells
    ensures var span := if cells >= 180 then 180 else cells; -span <= d <= span
    ensures WrapCell(base + d) == cell
  {
    var offset := cell - (base + 360 * n);
    var turns := if cells >= 180 then (offset + 180) / 360 else 0;
    d := offset - 360 * turns;
    assert base + d - cell == 360 * (-n - turns);
    ModShift(0, -n - turns);
    WrapIff(base + d, cell);
  }

  /** The column of an airport in the box: an offset within the span whose wrap is its cell. */
  lemma LonOffset(b: Box, lon: real) returns (dLon: int)
    requires !b.Polar() && -180.0 <= lon < 180.0
    requires 60.0 * WrappedDelta(lon - b.lon) * b.cosLat <= b.maxDist
    ensures -b.LonCells() <= dLon <= b.LonCells()
    ensures WrapCell(b.lon.Floor + dLon) == lon.Floor
  {
    hide WrappedDelta, WrapCell;
    var n := WrappedTurns(lon - b.lon);
    var turned := b.lon + 360.0 * n as real;
    LonWithinSpan(b, lon, WrappedDelta(lon - b.lon));
    CellsWithin(lon, turned, b.SpanDeg() / b.cosLat);
    FloorTurns(b.lon, n);
    dLon := OffsetWithin(b.lon.Floor, lon.Floor, n, Ceil(b.SpanDeg() / b.cosLat) + 1);
  }

  /** Every place on the globe that is in the box and short of longitude 180 lies in a
      cell the search visits. */
  lemma BoxIsCovered(b: Box, lat: real, lon: real) returns (dLat: int, dLon: int)
    requires !b.Polar() && OnGlobe(lat, lon) && lon < 180.0 && InBox(b, lat, lon)
    ensures b.Visits(dLat, dLon) && b.CellAt(dLat, dLon) == CellOf(lat, lon)
  {
    dLat := lat.Floor - b.lat.Floor;
    CellsWithin(lat, b.lat, b.SpanDeg());
    dLon := LonOffset(b, lon);
  }

  /** The cell of a place at longitude exactly 180 is never visited. */
  lemma DateLineIsMissed(b: Box, dLat: int, dLon: int, lat: real)
    ensures b.CellAt(dLat, dLon) != CellOf(lat, 180.0)
  {
    WrapIsResidue(b.lon.Floor + dLon);
  }
}
