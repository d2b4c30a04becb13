// The strict logbook: when a change to a flight entry is a correction, and why a
// correction stays one.

module Logbook {

  import opened Common
  import Signatures

  // Instants are UTC seconds; dates are days.
  type Instant = int
  type Date = int
  const DAY := 86_400
  const HOUR := 3_600
  const LATEST_UTC_OFFSET := 50_400

  function DateOnly(t: Instant): Date { t / DAY }

  // --- Edit windows ----------------------------------------------------------------------

  datatype Window = FlightDay | Hours48

  /** The nearest integer, halves away from zero. */
  function Round(x: real): int { if x >= 0.0 then (x + 0.5).Floor else -((-x + 0.5).Floor) }

  /** The end of the flight's date at the mean solar offset of the longitude. */
  function FlightDayEnd(date: Date, lon: real): Instant { (date + 1) * DAY - Round(lon / 15.0) * HOUR }

  /** That is the midnight that ends the date, in mean solar time at the longitude to the nearest whole hour. */
  lemma FlightDayEndsAtMidnight(date: Date, lon: real) returns (hours: int)
    ensures if lon >= 0.0 then lon - 7.5 < 15.0 * hours as real <= lon + 7.5 else lon - 7.5 <= 15.0 * hours as real < lon + 7.5
    ensures var end := FlightDayEnd(date, lon);
            DateOnly(end + hours * HOUR) == date + 1 && DateOnly(end - 1 + hours * HOUR) == date
  {
    hours := Round(lon / 15.0);
  }

  function WindowDeadline(w: Window, date: Date, landed: Option<Instant>, lon: real): Instant {
    if w.Hours48? && landed.Some? then landed.value + 48 * HOUR else FlightDayEnd(date, lon)
  }

  /** The earliest deadline across the windows that the licences require, or the end
      of the flight day when none is required. */
  ghost predicate IsDeadline(required: seq<Window>, date: Date, landed: Option<Instant>, lon: real, d: Instant) {
    if required == [] then d == FlightDayEnd(date, lon)
    else
      && (exists w :: w in required && d == WindowDeadline(w, date, landed, lon))
      && (forall w | w in required :: d <= WindowDeadline(w, date, landed, lon))
  }

  function DeadlineOf(required: seq<Window>, date: Date, landed: Option<Instant>, lon: real): Instant {
    if |required| == 0 then FlightDayEnd(date, lon)
    else
      var last := WindowDeadline(required[|required| - 1], date, landed, lon);
      if |required| == 1 then last
      else
        var rest := DeadlineOf(required[..|required| - 1], date, landed, lon);
        if last < rest then last else rest
  }

  lemma {:induction false} DeadlineIsEarliest(required: seq<Window>, date: Date, landed: Option<Instant>, lon: real)
    ensures IsDeadline(required, date, landed, lon, DeadlineOf(required, date, landed, lon))
  {
    hide WindowDeadline;
    if |required| > 0 {
      var init, last := required[..|required| - 1], required[|required| - 1];
      DeadlineIsEarliest(init, date, landed, lon);
      assert required == init + [last];
      assert last in required;
    }
  }

  /** Assessment.Deadline's loop. */
  method Deadline(required: seq<Window>, date: Date, landed: Option<Instant>, lon: real) returns (d: Instant)
    ensures d == DeadlineOf(required, date, landed, lon)
    ensures IsDeadline(required, date, landed, lon, d)
  {
    DeadlineIsEarliest(required, date, landed, lon);
    if |required| == 0 { return FlightDayEnd(date, lon); }
    var earliest: Option<Instant> := None;
    for i := 0 to |required|
      invariant i == 0 ==> earliest.None?
      invariant i > 0 ==> earliest == Some(DeadlineOf(required[..i], date, landed, lon))
    {
      assert required[..i + 1][..i] == required[..i];
      var x := WindowDeadline(required[i], date, landed, lon);
      if earliest.None? || x < earliest.value { earliest := Some(x); }
    }
    assert required[..|required|] == required;
    return earliest.value;
  }

  // --- Flights and the book ------------------------------------------------------------------

  /** What the rules read of when and where a flight took place. */
  datatype Timing = Timing(date: Date, offBlock: Option<string>, onBlock: Option<string>, departure: Option<string>)

  datatype Override = Override(flag: bool, value: int)

  const OVERRIDE_FIELDS := ["nightTime", "crossCountryTime", "takeoffsDay", "takeoffsNight", "landingsDay", "landingsNight", "sicTime", "multiPilotTime"]

  /** A flight entry; `others` stands for the columns no rule reads. */
  datatype Flight = Flight(timing: Timing, overrides: seq<Override>, others: string)

  ghost predicate WellFormed(f: Flight) { |f.overrides| == |OVERRIDE_FIELDS| }

  /** Lookups the rules make: the on-block instant and the departure longitude. */
  datatype Facts = Facts(onBlockInstant: Timing -> Option<Instant>, longitudeOf: string -> real)

  type FlightId = Signatures.FlightId
  type SigId = Signatures.SigId

  /** One user's strict logbook. */
  datatype Book = Book(now: Instant, strict: bool, required: seq<Window>, certified: Option<Date>,
                       flights: map<FlightId, Flight>, sigs: map<SigId, Signatures.Signature>)

  predicate OverrideChanged(before: Override, after: Override) {
    after.flag && (!before.flag || before.value != after.value)
  }

  predicate OverridesTouched(before: Flight, after: Flight) {
    exists i | 0 <= i < |before.overrides| && i < |after.overrides| :: OverrideChanged(before.overrides[i], after.overrides[i])
  }

  function LonOf(x: Facts, t: Timing): real { if t.departure.None? then 0.0 else x.longitudeOf(t.departure.value) }

  function DeadlineFor(x: Facts, b: Book, t: Timing): Instant { DeadlineOf(b.required, t.date, x.onBlockInstant(t), LonOf(x, t)) }

  /** The entry, or where the edit would move it, lies in the certified range. */
  predicate Certified(b: Book, existing: Flight, updated: Option<Flight>) {
    b.certified.Some? && (existing.timing.date <= b.certified.value || (updated.Some? && updated.value.timing.date <= b.certified.value))
  }

  predicate LateOverride(x: Facts, b: Book, existing: Flight, updated: Option<Flight>) {
    updated.Some? && OverridesTouched(existing, updated.value) && b.now > FlightDayEnd(existing.timing.date, LonOf(x, existing.timing))
  }

  predicate WindowClosed(x: Facts, b: Book, t: Timing) { b.now > DeadlineFor(x, b, t) }

  predicate OutsideWindow(x: Facts, b: Book, existing: Flight, updated: Option<Flight>) {
    WindowClosed(x, b, existing.timing) || Certified(b, existing, updated) || LateOverride(x, b, existing, updated)
  }

  /** The flight has carried a signature: completed, or completed once and voided since. */
  predicate EverSigned(b: Book, f: FlightId) {
    exists id | id in b.sigs :: b.sigs[id].flight == f && (b.sigs[id].status.Completed? || b.sigs[id].status.Voided?)
  }

  /** The verdict on turning `existing` into `updated`, or on deleting it. */
  predicate IsCorrection(x: Facts, b: Book, f: FlightId, existing: Flight, updated: Option<Flight>) {
    b.strict && (OutsideWindow(x, b, existing, updated) || EverSigned(b, f))
  }

  /** When an entry on the strict logbook may be changed freely: it never carried a signature, neither date
      is certified, every required window is open, and no override is raised after the flight day. */
  lemma FreeIff(x: Facts, b: Book, f: FlightId, existing: Flight, updated: Option<Flight>)
    requires b.strict
    ensures var t, landed := existing.timing, x.onBlockInstant(existing.timing);
            var dayEnd := FlightDayEnd(t.date, if t.departure.Some? then x.longitudeOf(t.departure.value) else 0.0);
            !IsCorrection(x, b, f, existing, updated) <==>
            && (forall id | id in b.sigs && b.sigs[id].flight == f :: b.sigs[id].status !in {Signatures.Completed, Signatures.Voided})
            && (b.certified.Some? ==> t.date > b.certified.value && (updated.Some? ==> updated.value.timing.date > b.certified.value))
            && (b.required == [] ==> b.now <= dayEnd)
            && (forall w | w in b.required :: b.now <= if w == Hours48 && landed.Some? then landed.value + 172_800 else dayEnd)
            && (updated.Some? && b.now > dayEnd ==>
                  forall i | 0 <= i < |existing.overrides| && i < |updated.value.overrides| && updated.value.overrides[i].flag ::
                    existing.overrides[i] == updated.value.overrides[i])
  {
    DeadlineIsEarliest(b.required, existing.timing.date, x.onBlockInstant(existing.timing), LonOf(x, existing.timing));
  }

  // --- Runs ----------------------------------------------------------------------------------------

  datatype CertifyResult = CertifiedThrough(through: Date) | NotStrict | InFuture | BeforeLatest

  function CertifyResultOf(b: Book, through: Instant): CertifyResult {
    var d := DateOnly(through);
    if !b.strict then NotStrict
    else if d > DateOnly(b.now + LATEST_UTC_OFFSET) then InFuture
    else if b.certified.Some? && d < b.certified.value then BeforeLatest
    else CertifiedThrough(d)
  }

  /** Which dates can be certified: on the strict logbook those that have begun somewhere on earth, where
      local time is up to 14 hours ahead of UTC, and that do not go back behind what is certified. */
  lemma CertifiableIff(b: Book, through: Instant)
    ensures var r, d := CertifyResultOf(b, through), DateOnly(through);
            var begun := exists o :: HasBegun(b.now, d, o);
            && (r == NotStrict <==> !b.strict)
            && (r == InFuture <==> b.strict && !begun)
            && (r == BeforeLatest <==> b.strict && begun && b.certified.Some? && b.certified.value > d)
            && (r == CertifiedThrough(d) <==> b.strict && begun && (b.certified.Some? ==> b.certified.value <= d))
  {
    var d := DateOnly(through);
    assert HasBegun(b.now, d, 14 * HOUR) <==> DateOnly(b.now + LATEST_UTC_OFFSET) >= d;
    forall o | HasBegun(b.now, d, o) ensures DateOnly(b.now + LATEST_UTC_OFFSET) >= d {
      DatesGoOn(b.now + o, b.now + LATEST_UTC_OFFSET);
    }
  }

  /** The date has begun where local time is `o` seconds ahead of UTC, 14 hours at most. */
  predicate HasBegun(now: Instant, d: Date, o: int) { -12 * HOUR <= o <= 14 * HOUR && DateOnly(now + o) >= d }

  lemma DatesGoOn(t: Instant, u: Instant)
    requires t <= u
    ensures DateOnly(t) <= DateOnly(u)
  {
  }

  function Certify(b: Book, through: Instant): Book {
    var r := CertifyResultOf(b, through);
    if r.CertifiedThrough? then b.(certified := Some(r.through)) else b
  }

  datatype Step =
    | Tick(d: nat)
    | CertifyThrough(through: Instant)
    | SaveFlight(f: FlightId, flight: Flight)
    | DeleteFlight(f: FlightId)
    | SignatureStep(sigs: map<SigId, Signatures.Signature>)

  /** Signatures of flights that stay are kept and only move forward. */
  ghost predicate Evolves(b: Book, sigs: map<SigId, Signatures.Signature>) {
    forall id | id in b.sigs && b.sigs[id].flight in b.flights :: id in sigs && Signatures.Continues(b.sigs[id], sigs[id])
  }

  /** Strict mode and licences stay fixed. */
  ghost predicate Next(b: Book, e: Step, b': Book) {
    match e
    case Tick(d) => b' == b.(now := b.now + d)
    case CertifyThrough(through) => b' == Certify(b, through)
    case SaveFlight(f, flight) => b' == b.(flights := b.flights[f := flight])
    case DeleteFlight(f) =>
      b' == b.(flights := b.flights - {f}, sigs := map id | id in b.sigs && b.sigs[id].flight != f :: b.sigs[id])
    case SignatureStep(sigs) => Evolves(b, sigs) && b' == b.(sigs := sigs)
  }

  ghost predicate Run(books: seq<Book>, steps: seq<Step>) {
    && |books| == |steps| + 1
    && forall i | 0 <= i < |steps| :: Next(books[i], steps[i], books[i + 1])
  }

  /** The flight is in the book throughout. */
  ghost predicate Stays(books: seq<Book>, i: nat, j: nat, f: FlightId)
    requires j < |books|
  {
    forall m | i <= m <= j :: f in books[m].flights
  }

  /** What only grows: time, the certified range and the signature history of flights that stay. */
  ghost predicate Grown(b: Book, b': Book, f: FlightId) {
    && b.now <= b'.now && b.strict == b'.strict && b.required == b'.required
    && (b.certified.Some? ==> b'.certified.Some? && b.certified.value <= b'.certified.value)
    && (EverSigned(b, f) ==> EverSigned(b', f))
  }

  lemma StepGrows(b: Book, e: Step, b': Book, f: FlightId)
    requires Next(b, e, b') && f in b.flights && f in b'.flights
    ensures Grown(b, b', f)
  {
    if EverSigned(b, f) {
      var id :| id in b.sigs && b.sigs[id].flight == f && (b.sigs[id].status.Completed? || b.sigs[id].status.Voided?);
      if e.SignatureStep? { assert Signatures.Continues(b.sigs[id], b'.sigs[id]); }
      assert id in b'.sigs && b'.sigs[id].flight == f;
    }
  }

  lemma {:induction false} RunGrows(books: seq<Book>, steps: seq<Step>, i: nat, j: nat, f: FlightId)
    requires Run(books, steps) && i <= j < |books| && Stays(books, i, j, f)
    ensures Grown(books[i], books[j], f)
    decreases j
  {
    hide Next, EverSigned;
    if i < j {
      RunGrows(books, steps, i, j - 1, f);
      StepGrows(books[j - 1], steps[j - 1], books[j], f);
    }
  }

  /** A verdict never softens as the book grows, for an entry whose timing and overrides are as they were. */
  lemma GrownKeepsCorrection(x: Facts, b: Book, b': Book, f: FlightId, existing: Flight, existing': Flight, updated: Option<Flight>)
    requires Grown(b, b', f) && IsCorrection(x, b, f, existing, updated)
    requires existing'.timing == existing.timing && existing'.overrides == existing.overrides
    ensures IsCorrection(x, b', f, existing', updated)
  {
    hide EverSigned;
    if WindowClosed(x, b, existing.timing) {
      assert DeadlineFor(x, b', existing.timing) == DeadlineFor(x, b, existing.timing);
      assert WindowClosed(x, b', existing'.timing);
    }
    if LateOverride(x, b, existing, updated) {
      assert OverridesTouched(existing', updated.value);
    }
  }

  /** Once a change to an entry is a correction it is one for the rest of the run, for as
      long as the entry keeps its timing and overrides, whatever else changes. */
  lemma CorrectionsStay(x: Facts, books: seq<Book>, steps: seq<Step>, i: nat, j: nat, f: FlightId, updated: Option<Flight>)
    requires Run(books, steps) && i <= j < |books| && Stays(books, i, j, f)
    requires books[j].flights[f].timing == books[i].flights[f].timing && books[j].flights[f].overrides == books[i].flights[f].overrides
    requires IsCorrection(x, books[i], f, books[i].flights[f], updated)
    ensures IsCorrection(x, books[j], f, books[j].flights[f], updated)
  {
    hide IsCorrection, Grown;
    RunGrows(books, steps, i, j, f);
    GrownKeepsCorrection(x, books[i], books[j], f, books[i].flights[f], books[j].flights[f], updated);
  }

  /** For a flight ever signed no proviso is needed: every later change is a correction. */
  lemma SignedStaysCorrection(x: Facts, books: seq<Book>, steps: seq<Step>, i: nat, j: nat, f: FlightId, existing: Flight, updated: Option<Flight>)
    requires Run(books, steps) && i <= j < |books| && Stays(books, i, j, f)
    requires books[i].strict && EverSigned(books[i], f)
    ensures IsCorrection(x, books[j], f, existing, updated)
  {
    hide EverSigned, OutsideWindow;
    RunGrows(books, steps, i, j, f);
  }

  /** What a caller can see of an entry before touching it: it was signed, its window has
      closed, or it lies in the certified range. */
  predicate Settled(x: Facts, b: Book, f: FlightId, entry: Flight) {
    EverSigned(b, f) || WindowClosed(x, b, entry.timing) || Certified(b, entry, None)
  }

  /** From here on, in every run, every change to the entry while it keeps its timing and
      overrides is a correction. */
  ghost predicate AlwaysCorrection(x: Facts, b: Book, f: FlightId)
    requires f in b.flights
  {
    forall books: seq<Book>, steps: seq<Step>, j: nat, updated: Option<Flight>
      | Run(books, steps) && j < |books| && books[0] == b && Stays(books, 0, j, f)
        && books[j].flights[f].timing == b.flights[f].timing && books[j].flights[f].overrides == b.flights[f].overrides ::
      IsCorrection(x, books[j], f, books[j].flights[f], updated)
  }

  /** Changes to an entry are corrections for good exactly when it is settled. */
  lemma CorrectionForGoodIff(x: Facts, b: Book, f: FlightId)
    requires b.strict && f in b.flights
    ensures AlwaysCorrection(x, b, f) <==> Settled(x, b, f, b.flights[f])
  {
    hide EverSigned, WindowClosed;
    if Settled(x, b, f, b.flights[f]) {
      forall books: seq<Book>, steps: seq<Step>, j: nat, updated: Option<Flight>
        | Run(books, steps) && j < |books| && books[0] == b && Stays(books, 0, j, f)
          && books[j].flights[f].timing == b.flights[f].timing && books[j].flights[f].overrides == b.flights[f].overrides
        ensures IsCorrection(x, books[j], f, books[j].flights[f], updated)
      {
        CorrectionsStay(x, books, steps, 0, j, f, updated);
      }
    }
    if AlwaysCorrection(x, b, f) {
      assert Run([b], []) && Stays([b], 0, 0, f);
      assert IsCorrection(x, [b][0], f, [b][0].flights[f], None);
    }
  }

  /** So a correction can free an entry: changes after a save are corrections for good exactly
      when the flight was ever signed or the saved entry's own window has closed or its own date
      is certified, whatever held of the entry before. */
  lemma FreeAfterSaveIff(x: Facts, b: Book, f: FlightId, moved: Flight)
    requires b.strict
    ensures var b' := b.(flights := b.flights[f := moved]);
            && Next(b, SaveFlight(f, moved), b')
            && (AlwaysCorrection(x, b', f) <==> Settled(x, b, f, moved))
            && (!Settled(x, b, f, moved) ==> !IsCorrection(x, b', f, moved, None))
  {
    var b' := b.(flights := b.flights[f := moved]);
    assert DeadlineFor(x, b', moved.timing) == DeadlineFor(x, b, moved.timing);
    assert EverSigned(b', f) == EverSigned(b, f);
    CorrectionForGoodIff(x, b', f);
  }

  /** It does happen: a closed entry that nobody signed is moved, by a correction, to a date
      that is open and not certified. */
  lemma MovedEntryIsFreeAgain(x: Facts, b: Book, f: FlightId, moved: Flight)
    requires b.strict && f in b.flights && Settled(x, b, f, b.flights[f]) && !Settled(x, b, f, moved)
    ensures AlwaysCorrection(x, b, f) && IsCorrection(x, b, f, b.flights[f], Some(moved))
    ensures !AlwaysCorrection(x, b.(flights := b.flights[f := moved]), f)
  {
    hide EverSigned, WindowClosed, AlwaysCorrection;
    CorrectionForGoodIff(x, b, f);
    FreeAfterSaveIff(x, b, f, moved);
  }

  /** Every step of the sign-off service with fresh mail copies is a signature step of the book. */
  lemma SignOffEvolves(h: Signatures.Hasher, s: Signatures.Store, e: Signatures.Step, id: SigId)
    requires Signatures.Sound(h, s) && Signatures.FreshCopy(s, e)
    requires id in s.sigs && s.sigs[id].flight in Signatures.Apply(h, s, e).flights
    ensures id in Signatures.Apply(h, s, e).sigs && Signatures.Continues(s.sigs[id], Signatures.Apply(h, s, e).sigs[id])
  {
    SignOffKeepsRow(h, s, e, id);
    hide Signatures.Apply, Signatures.Sound, Signatures.FreshCopy;
    Signatures.StepEvolves(h, s, e);
  }

  lemma SignOffKeepsRow(h: Signatures.Hasher, s: Signatures.Store, e: Signatures.Step, id: SigId)
    requires Signatures.Sound(h, s) && id in s.sigs && s.sigs[id].flight in Signatures.Apply(h, s, e).flights
    ensures id in Signatures.Apply(h, s, e).sigs
  {
    hide Signatures.Blank, Signatures.TokenUsed, Signatures.PendingOf, Signatures.PastDue, Signatures.CheckSigner, Signatures.ClampExpiryHours;
  }

  // --- Deleting many -----------------------------------------------------------------------------------

  /** A row of the timings list: only what the rules read, and whether the flight was ever signed. */
  datatype TimingRow = TimingRow(id: FlightId, timing: Timing, signed: bool)

  /** The list the bulk delete loads. */
  ghost predicate ListsTimings(b: Book, rows: seq<TimingRow>) {
    && (forall r | r in rows :: r.id in b.flights && r.timing == b.flights[r.id].timing && r.signed == EverSigned(b, r.id))
    && (forall f | f in b.flights :: exists r :: r in rows && r.id == f)
  }

  predicate Flagged(x: Facts, b: Book, r: TimingRow) {
    r.signed || WindowClosed(x, b, r.timing) || (b.certified.Some? && r.timing.date <= b.certified.value)
  }

  /** DeleteClassifier.Corrections, in the order of the list. */
  method Corrections(x: Facts, b: Book, rows: seq<TimingRow>) returns (ids: seq<FlightId>)
    requires b.strict
    ensures forall f :: f in ids <==> exists r :: r in rows && r.id == f && Flagged(x, b, r)
    ensures |ids| <= |rows|
  {
    ids := [];
    for i := 0 to |rows|
      invariant |ids| <= i
      invariant forall f :: f in ids <==> exists r :: r in rows[..i] && r.id == f && Flagged(x, b, r)
    {
      var r := rows[i];
      assert rows[..i + 1] == rows[..i] + [r];
      if Flagged(x, b, r) { ids := ids + [r.id]; }
    }
    assert rows[..|rows|] == rows;
  }


  /** The bulk classifier flags exactly the flights whose single deletion would be a
      correction, though it reads only the timings. */
  lemma BulkAgreesWithSingle(x: Facts, b: Book, rows: seq<TimingRow>, ids: seq<FlightId>, f: FlightId)
    requires b.strict && ListsTimings(b, rows) && f in b.flights
    requires forall g :: g in ids <==> exists r :: r in rows && r.id == g && Flagged(x, b, r)
    ensures f in ids <==> IsCorrection(x, b, f, b.flights[f], None)
  {
    hide EverSigned, WindowClosed;
    var row :| row in rows && row.id == f;
  }

  // --- Certifying and overriding -------------------------------------------------------------------------

  class LogbookService {
    const facts: Facts
    var book: Book

    constructor (facts: Facts, book: Book)
      ensures this.facts == facts && this.book == book
    {
      this.facts, this.book := facts, book;
    }

    method CreateCertification(through: Instant) returns (r: CertifyResult)
      modifies this
      ensures book == Certify(old(book), through) && r == CertifyResultOf(old(book), through)
    {
      if !book.strict { return NotStrict; }
      var d := DateOnly(through);
      if d > DateOnly(book.now + LATEST_UTC_OFFSET) { return InFuture; }
      if book.certified.Some? && d < book.certified.value { return BeforeLatest; }
      book := book.(certified := Some(d));
      return CertifiedThrough(d);
    }

    /** ClassifyEditWith. */
    method Classify(f: FlightId, existing: Flight, updated: Option<Flight>) returns (correction: bool)
      requires WellFormed(existing) && (updated.Some? ==> WellFormed(updated.value))
      ensures correction <==> IsCorrection(facts, book, f, existing, updated)
    {
      if !book.strict { return false; }
      var outside := IsOutsideWindow(existing, updated);
      if outside { return true; }
      var todo := book.sigs.Keys;
      while todo != {}
        invariant todo <= book.sigs.Keys
        invariant forall id | id in book.sigs && id !in todo && book.sigs[id].flight == f ::
          !book.sigs[id].status.Completed? && !book.sigs[id].status.Voided?
      {
        var id :| id in todo;
        var sig := book.sigs[id];
        if sig.flight == f && (sig.status.Completed? || sig.status.Voided?) { return true; }
        todo := todo - {id};
      }
      return false;
    }

    method IsOutsideWindow(existing: Flight, updated: Option<Flight>) returns (outside: bool)
      requires WellFormed(existing) && (updated.Some? ==> WellFormed(updated.value))
      ensures outside <==> OutsideWindow(facts, book, existing, updated)
    {
      var t := existing.timing;
      var lon := LonOf(facts, t);
      var deadline := Deadline(book.required, t.date, facts.onBlockInstant(t), lon);
      if book.now > deadline { return true; }
      if book.certified.Some? {
        var earliest := t.date;
        if updated.Some? && updated.value.timing.date < earliest { earliest := updated.value.timing.date; }
        if earliest <= book.certified.value { return true; }
      }
      if updated.None? { return false; }
      var touched := AnyOverrideTouched(existing, updated.value);
      return touched && book.now > FlightDayEnd(t.date, lon);
    }
  }

  method AnyOverrideTouched(before: Flight, after: Flight) returns (touched: bool)
    requires WellFormed(before) && WellFormed(after)
    ensures touched <==> OverridesTouched(before, after)
  {
    for i := 0 to |OVERRIDE_FIELDS|
      invariant forall k | 0 <= k < i :: !OverrideChanged(before.overrides[k], after.overrides[k])
    {
      if OverrideChanged(before.overrides[i], after.overrides[i]) { return true; }
    }
    return false;
  }

  function Cleared(f: Flight): Flight { f.(overrides := seq(|f.overrides|, i => Override(false, 0))) }

  /** The flight as it would be with no override set. */
  ghost predicate NoneSet(f: Flight, plain: Flight) {
    && plain.timing == f.timing && plain.others == f.others && |plain.overrides| == |f.overrides|
    && forall i | 0 <= i < |plain.overrides| :: !plain.overrides[i].flag && plain.overrides[i].value == 0
  }

  lemma NoneSetIsCleared(f: Flight, plain: Flight)
    ensures NoneSet(f, plain) <==> plain == Cleared(f)
  {
    if NoneSet(f, plain) { assert plain.overrides == Cleared(f).overrides; }
  }

  predicate HasOverride(f: Flight) { exists i | 0 <= i < |f.overrides| :: f.overrides[i].flag }

  function OverrideBefore(previous: Option<Flight>, i: nat): Override
    requires previous.Some? ==> i < |previous.value.overrides|
  {
    if previous.Some? then previous.value.overrides[i] else Override(false, 0)
  }

  /** CheckDownwardOverridesWith: in strict mode, under a rule that allows overrides only
      downward, the fields whose new or changed override exceeds what would be calculated with
      no override set; otherwise none. */
  method ExceededOverrides(strict: bool, downwardOnly: bool, previous: Option<Flight>, flight: Flight, calculate: Flight -> seq<int>)
      returns (exceeded: seq<string>)
    requires WellFormed(flight) && (previous.Some? ==> WellFormed(previous.value)) && forall f :: |calculate(f)| == |OVERRIDE_FIELDS|
    ensures !strict || !downwardOnly ==> exceeded == []
    ensures strict && downwardOnly ==> forall plain, i | NoneSet(flight, plain) && 0 <= i < |OVERRIDE_FIELDS| ::
              OVERRIDE_FIELDS[i] in exceeded
              <==> && flight.overrides[i].flag && flight.overrides[i].value > calculate(plain)[i]
                   && (previous.Some? && previous.value.overrides[i].flag ==> previous.value.overrides[i].value != flight.overrides[i].value)
    ensures forall name | name in exceeded :: name in OVERRIDE_FIELDS
  {
    exceeded := [];
    forall plain | NoneSet(flight, plain) ensures plain == Cleared(flight) { NoneSetIsCleared(flight, plain); }
    if !strict || !downwardOnly || !HasOverride(flight) { return; }
    var calculated := calculate(Cleared(flight));
    for i := 0 to |OVERRIDE_FIELDS|
      invariant forall name | name in exceeded :: exists k | 0 <= k < i :: OVERRIDE_FIELDS[k] == name
      invariant forall k | 0 <= k < i ::
              OVERRIDE_FIELDS[k] in exceeded
              <==> OverrideChanged(OverrideBefore(previous, k), flight.overrides[k]) && flight.overrides[k].value > calculated[k]
    {
      FieldNamesDiffer(i);
      if OverrideChanged(OverrideBefore(previous, i), flight.overrides[i]) && flight.overrides[i].value > calculated[i] {
        exceeded := exceeded + [OVERRIDE_FIELDS[i]];
      }
    }
  }

  lemma FieldNamesDiffer(i: nat)
    requires i < |OVERRIDE_FIELDS|
    ensures forall k | 0 <= k < |OVERRIDE_FIELDS| && k != i :: OVERRIDE_FIELDS[k] != OVERRIDE_FIELDS[i]
  {
    assert |"nightTime"| == 9 && |"crossCountryTime"| == 16 && |"takeoffsDay"| == 11 && |"takeoffsNight"| == 13;
    assert |"landingsDay"| == 11 && |"landingsNight"| == 13 && |"sicTime"| == 7 && |"multiPilotTime"| == 14;
    assert "takeoffsDay"[0] == 't' && "landingsDay"[0] == 'l' && "takeoffsNight"[0] == 't' && "landingsNight"[0] == 'l';
  }
}
