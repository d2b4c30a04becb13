// Expiry warnings and lapse notices: thresholds, claims in the notification log, and
// what is mailed along any run of checks with any failures.

module Notifications {

  import opened Common
  import opened Ordering

  // --- Crossed thresholds --------------------------------------------------------------

  ghost predicate Distinct(s: seq<int>) { forall i, j | 0 <= i < j < |s| :: s[i] != s[j] }

  lemma SortAscends(s: seq<int>)
    requires Distinct(s)
    ensures Ascending(Sort(Below(), s))
  {
    assert WeakOrder(Below()) && Comparable(Below(), s);
    SortStrict(Below(), s);
    var r := Sort(Below(), s);
    forall i, j | 0 <= i < j < |r| ensures r[i] < r[j] {
      assert Below()(r[i], r[j]);
    }
  }

  /** `crossed` lists, ascending, the thresholds at or above the days left. */
  ghost predicate Crossed(warningDays: seq<int>, daysUntil: int, crossed: seq<int>) {
    Ascending(crossed) && forall w :: w in crossed <==> w in warningDays && daysUntil >= 0 && w >= daysUntil
  }

  /** The smallest crossed threshold and the larger ones, or nothing. */
  method CrossedThresholds(warningDays: seq<int>, daysUntil: int) returns (nearest: int, farther: seq<int>, ok: bool)
    ensures ok ==> Crossed(warningDays, daysUntil, [nearest] + farther)
    ensures !ok <==> daysUntil < 0 || forall w | w in warningDays :: w < daysUntil
    ensures !ok ==> Crossed(warningDays, daysUntil, [])
  {
    if daysUntil < 0 { return 0, [], false; }
    var crossed: seq<int> := [];
    for i := 0 to |warningDays|
      invariant Distinct(crossed)
      invariant forall w :: w in crossed <==> w in warningDays[..i] && w >= daysUntil
    {
      var wd := warningDays[i];
      assert warningDays[..i + 1] == warningDays[..i] + [wd];
      if wd >= daysUntil && wd !in crossed { crossed := crossed + [wd]; }
    }
    assert warningDays[..|warningDays|] == warningDays;
    if |crossed| == 0 { return 0, [], false; }
    var first := crossed[0];
    assert first in crossed;
    var sorted := Sort(Below(), crossed);
    SortAscends(crossed);
    SameElements(sorted, crossed);
    assert sorted == [sorted[0]] + sorted[1..];
    return sorted[0], sorted[1..], true;
  }

  // --- One check ----------------------------------------------------------------------------

  /** The log rows of one item and expiry date: recorded threshold to skipped. */
  type Log = map<int, bool>

  /** Which call of a check fails: the claim with this number, the send, the release. */
  datatype Faults = Faults(claimFailsAt: Option<nat>, sendFails: bool, releaseFails: bool)

  /** ClaimNotification: a row that exists stays as it is. */
  function Claim(log: Log, days: int, skipped: bool): Log { if days in log then log else log[days := skipped] }

  function RecordSkipped(log: Log, days: seq<int>): Log {
    if days == [] then log else Claim(RecordSkipped(log, days[..|days| - 1]), days[|days| - 1], true)
  }

  /** The log and the mail after a check that crossed `crossed`. */
  function Check(log: Log, crossed: seq<int>, faults: Faults): (Log, Option<int>) {
    if crossed == [] then (log, None)
    else
      var nearest, farther := crossed[0], crossed[1..];
      var n := faults.claimFailsAt;
      if n.Some? && n.value < |farther| then (RecordSkipped(log, farther[..n.value]), None)
      else
        var log1 := RecordSkipped(log, farther);
        if (n.Some? && n.value == |farther|) || nearest in log1 then (log1, None)
        else if !faults.sendFails then (log1[nearest := false], Some(nearest))
        else if faults.releaseFails then (log1[nearest := false], None)
        else (log1, None)
  }

  lemma {:induction false} RecordSkippedKeeps(log: Log, days: seq<int>)
    ensures var r := RecordSkipped(log, days);
            && (forall d | d in log :: d in r && r[d] == log[d])
            && (forall d :: d in r <==> d in log || d in days)
            && (forall d | d in r && d !in log :: r[d])
  {
    if days != [] {
      RecordSkippedKeeps(log, days[..|days| - 1]);
      assert days == days[..|days| - 1] + [days[|days| - 1]];
    }
  }

  class NotificationService {
    var log: Log
    var mailed: seq<int>
    /** The dates of the item's lapse rows, and of the lapse notices mailed. */
    var lapses: set<int>
    var lapsesMailed: seq<int>

    constructor ()
      ensures log == map[] && mailed == [] && lapses == {} && lapsesMailed == []
    {
      log, mailed, lapses, lapsesMailed := map[], [], {}, [];
    }

    /** sendWarning: record the farther thresholds as skipped, then claim and send the nearest. */
    method SendWarning(warningDays: seq<int>, daysUntil: int, faults: Faults) returns (ghost crossed: seq<int>)
      modifies this
      ensures Crossed(warningDays, daysUntil, crossed)
      ensures log == Check(old(log), crossed, faults).0
      ensures mailed == old(mailed) + var m := Check(old(log), crossed, faults).1; if m.Some? then [m.value] else []
      ensures lapses == old(lapses) && lapsesMailed == old(lapsesMailed)
    {
      var nearest, farther, ok := CrossedThresholds(warningDays, daysUntil);
      crossed := if ok then [nearest] + farther else [];
      if !ok { return; }
      assert crossed[1..] == farther;
      var failed := RecordFarther(farther, faults);
      if !failed { Deliver(nearest, faults, |farther|); }
    }

    /** The loop over the farther thresholds, up to the first claim that fails. */
    method RecordFarther(farther: seq<int>, faults: Faults) returns (failed: bool)
      modifies this
      ensures failed <==> faults.claimFailsAt.Some? && faults.claimFailsAt.value < |farther|
      ensures log == RecordSkipped(old(log), if failed then farther[..faults.claimFailsAt.value] else farther)
      ensures mailed == old(mailed) && lapses == old(lapses) && lapsesMailed == old(lapsesMailed)
    {
      for i := 0 to |farther|
        invariant log == RecordSkipped(old(log), farther[..i])
        invariant mailed == old(mailed) && lapses == old(lapses) && lapsesMailed == old(lapsesMailed)
        invariant faults.claimFailsAt.Some? ==> faults.claimFailsAt.value >= i
      {
        if faults.claimFailsAt == Some(i) { return true; }
        assert farther[..i + 1][..i] == farther[..i];
        log := Claim(log, farther[i], true);
      }
      assert farther[..|farther|] == farther;
      return false;
    }

    /** deliver: claim, send, and give the claim back if the send failed. */
    method Deliver(days: int, faults: Faults, claimNo: nat)
      modifies this
      ensures var free := faults.claimFailsAt != Some(claimNo) && days !in old(log);
              && log == (if free && (!faults.sendFails || faults.releaseFails) then old(log)[days := false] else old(log))
              && mailed == old(mailed) + if free && !faults.sendFails then [days] else []
      ensures lapses == old(lapses) && lapsesMailed == old(lapsesMailed)
    {
      if faults.claimFailsAt == Some(claimNo) { return; }
      if days in log { return; }
      log := log[days := false];
      if faults.sendFails {
        if !faults.releaseFails { log := log - {days}; }
        return;
      }
      mailed := mailed + [days];
    }

    /** sendLapse: the same with the claim that a row of this or a later date refuses. */
    method SendLapse(date: int, faults: Faults)
      modifies this
      ensures var free := faults.claimFailsAt != Some(0) && forall d | d in old(lapses) :: d < date;
              && lapses == (if free && (!faults.sendFails || faults.releaseFails) then old(lapses) + {date} else old(lapses))
              && lapsesMailed == old(lapsesMailed) + if free && !faults.sendFails then [date] else []
      ensures LapseStep(old(lapses), date, lapses, lapsesMailed != old(lapsesMailed))
      ensures log == old(log) && mailed == old(mailed)
    {
      if faults.claimFailsAt == Some(0) { return; }
      if exists d | d in lapses :: d >= date { return; }
      lapses := lapses + {date};
      if faults.sendFails {
        if !faults.releaseFails { lapses := lapses - {date}; }
        return;
      }
      lapsesMailed := lapsesMailed + [date];
    }
  }

  // --- Runs of checks -------------------------------------------------------------------------------

  /** Logs joined by checks against fixed thresholds; `mails[i]` is what check `i` mailed.
      Days left and failures are arbitrary. */
  ghost predicate Run(warningDays: seq<int>, logs: seq<Log>, days: seq<int>, mails: seq<Option<int>>) {
    && |logs| == |days| + 1 == |mails| + 1
    && forall i | 0 <= i < |days| :: OneCheck(warningDays, logs[i], days[i], logs[i + 1], mails[i])
  }

  ghost predicate OneCheck(warningDays: seq<int>, log: Log, daysUntil: int, log': Log, mail: Option<int>) {
    exists crossed, faults :: Crossed(warningDays, daysUntil, crossed) && Check(log, crossed, faults) == (log', mail)
  }

  /** Every threshold at or above `v` is on record. */
  ghost predicate RecordedFrom(warningDays: seq<int>, log: Log, v: int) {
    forall w | w in warningDays && w >= v :: w in log
  }

  /** One check loses no row, and mails a threshold only after it and all farther ones are on record. */
  lemma CheckKeeps(warningDays: seq<int>, log: Log, daysUntil: int, log': Log, mail: Option<int>)
    requires OneCheck(warningDays, log, daysUntil, log', mail)
    ensures forall w | w in log :: w in log' && log'[w] == log[w]
    ensures mail.Some? ==> mail.value in warningDays && mail.value !in log && RecordedFrom(warningDays, log', mail.value) && !log'[mail.value]
  {
    var crossed, faults :| Crossed(warningDays, daysUntil, crossed) && Check(log, crossed, faults) == (log', mail);
    if crossed != [] {
      var farther := crossed[1..];
      assert crossed == [crossed[0]] + farther;
      RecordSkippedKeeps(log, farther);
      if faults.claimFailsAt.Some? && faults.claimFailsAt.value < |farther| {
        RecordSkippedKeeps(log, farther[..faults.claimFailsAt.value]);
      }
    }
  }

  lemma {:induction false} RowsStay(warningDays: seq<int>, logs: seq<Log>, days: seq<int>, mails: seq<Option<int>>, i: nat, j: nat)
    requires Run(warningDays, logs, days, mails) && i <= j < |logs|
    ensures forall w | w in logs[i] :: w in logs[j] && logs[j][w] == logs[i][w]
    decreases j
  {
    hide OneCheck;
    if i < j {
      RowsStay(warningDays, logs, days, mails, i, j - 1);
      CheckKeeps(warningDays, logs[j - 1], days[j - 1], logs[j], mails[j - 1]);
    }
  }

  /** The mailed thresholds are strictly decreasing, so each is mailed at most once, whatever
      the order of days and whatever fails. */
  lemma MailsDecrease(warningDays: seq<int>, logs: seq<Log>, days: seq<int>, mails: seq<Option<int>>, i: nat, j: nat)
    requires Run(warningDays, logs, days, mails) && i < j < |mails| && mails[i].Some? && mails[j].Some?
    ensures mails[j].value < mails[i].value
  {
    hide OneCheck;
    CheckKeeps(warningDays, logs[i], days[i], logs[i + 1], mails[i]);
    CheckKeeps(warningDays, logs[j], days[j], logs[j + 1], mails[j]);
    RowsStay(warningDays, logs, days, mails, i + 1, j);
  }

  /** From the moment a threshold is mailed, it and every farther threshold stay on record,
      the mailed one as sent. */
  lemma FartherStayRecorded(warningDays: seq<int>, logs: seq<Log>, days: seq<int>, mails: seq<Option<int>>, i: nat, j: nat)
    requires Run(warningDays, logs, days, mails) && i < j < |logs| && mails[i].Some?
    ensures RecordedFrom(warningDays, logs[j], mails[i].value)
    ensures mails[i].value in logs[j] && !logs[j][mails[i].value]
  {
    hide OneCheck;
    CheckKeeps(warningDays, logs[i], days[i], logs[i + 1], mails[i]);
    RowsStay(warningDays, logs, days, mails, i + 1, j);
  }

  /** A check that meets no failure leaves every crossed threshold on record, and mails the
      nearest exactly when it was not on record before. */
  lemma CleanCheck(warningDays: seq<int>, log: Log, daysUntil: int, crossed: seq<int>)
    requires Crossed(warningDays, daysUntil, crossed)
    ensures var (log', mail) := Check(log, crossed, Faults(None, false, false));
            && (forall w | w in crossed :: w in log')
            && (mail == if crossed != [] && crossed[0] !in log then Some(crossed[0]) else None)
  {
    if crossed != [] {
      assert crossed == [crossed[0]] + crossed[1..];
      RecordSkippedKeeps(log, crossed[1..]);
      assert crossed[0] !in crossed[1..];
    }
  }

  /** What any check does, whichever calls fail. Claims go from the second threshold outwards and then to the
      nearest: a failed one ends the check. The nearest is mailed exactly when all claims were made, it was
      new and the send went through; it is left on record unmailed exactly when send and release both failed. */
  lemma CheckExactly(log: Log, crossed: seq<int>, faults: Faults)
    requires crossed != [] && forall i | 1 <= i < |crossed| :: crossed[i] != crossed[0]
    ensures var (log', mail) := Check(log, crossed, faults);
            var nearest, n := crossed[0], faults.claimFailsAt;
            var goes := (n.None? || n.value >= |crossed|) && nearest !in log;
            && (mail == if goes && !faults.sendFails then Some(nearest) else None)
            && (nearest in log' <==> nearest in log || (goes && (!faults.sendFails || faults.releaseFails)))
            && (forall w | w != nearest :: w in log' <==> w in log || exists i :: ClaimedBy(crossed, n, i) && crossed[i] == w)
            && (forall w | w in log :: w in log' && log'[w] == log[w])
            && (forall w | w in log' && w !in log :: log'[w] == (w != nearest))
  {
    var nearest, farther, n := crossed[0], crossed[1..], faults.claimFailsAt;
    var made := if n.Some? && n.value < |farther| then farther[..n.value] else farther;
    RecordSkippedKeeps(log, made);
    assert nearest !in farther;
    forall w ensures w in made <==> exists i :: ClaimedBy(crossed, n, i) && crossed[i] == w {
      if w in made {
        var k :| 0 <= k < |made| && made[k] == w;
        assert ClaimedBy(crossed, n, k + 1);
      }
      forall i | ClaimedBy(crossed, n, i) && crossed[i] == w ensures w in made { assert made[i - 1] == w; }
    }
  }

  /** The threshold at `i`, beyond the nearest, is claimed before any claim fails. */
  predicate ClaimedBy(crossed: seq<int>, claimFailsAt: Option<nat>, i: int) {
    1 <= i < |crossed| && (claimFailsAt.Some? ==> i <= claimFailsAt.value)
  }

  /** The nearest threshold crossed when `d` days are left. */
  ghost predicate NearestCrossed(warningDays: seq<int>, d: int, w: int) {
    w in warningDays && 0 <= d <= w && forall other | other in warningDays && other >= d :: w <= other
  }

  /** The thresholds must stay fixed: once `v` is on record as mailed, a check without failures
      against whatever thresholds the user has set since mails one that is not smaller exactly
      when the nearest of them that is crossed exceeds `v` and is not on record. */
  lemma LaterMailNotSmallerIff(warningDays: seq<int>, log: Log, d: int, v: int, crossed: seq<int>)
    requires v in log && Crossed(warningDays, d, crossed)
    ensures var mail := Check(log, crossed, Faults(None, false, false)).1;
            mail.Some? && mail.value >= v <==> exists w :: NearestCrossed(warningDays, d, w) && w > v && w !in log
  {
    CleanCheck(warningDays, log, d, crossed);
    if crossed != [] {
      var nearest := crossed[0];
      assert nearest in crossed;
      forall other | other in warningDays && other >= d ensures crossed[0] <= other {
        assert other in crossed;
      }
      assert NearestCrossed(warningDays, d, crossed[0]);
    }
    forall w | NearestCrossed(warningDays, d, w) ensures crossed != [] && w == crossed[0] {
      assert w in crossed;
      assert crossed[0] in crossed;
    }
  }

  /** It does happen whenever the thresholds are replaced by a single larger one that is new. */
  lemma NewThresholdReorders(log: Log, d: int, v: int, w: int)
    requires v in log && 0 <= d <= v < w && w !in log
    ensures Crossed([w], d, [w]) && Check(log, [w], Faults(None, false, false)) == (log[w := false], Some(w))
  {
    assert [w][1..] == [];
  }

  // --- Lapse notices -------------------------------------------------------------------------------------

  /** One delivery of a lapse notice: the dates on record, and whether it was mailed. A date
      on or after the notice's own refuses the claim. */
  ghost predicate LapseStep(dates: set<int>, date: int, dates': set<int>, mailed: bool) {
    var free := forall d | d in dates :: d < date;
    || (!mailed && dates' == dates)
    || (free && dates' == dates + {date})
  }

  ghost predicate LapseRun(logs: seq<set<int>>, dates: seq<int>, mailed: seq<bool>) {
    && |logs| == |dates| + 1 == |mailed| + 1
    && forall i | 0 <= i < |dates| :: LapseStep(logs[i], dates[i], logs[i + 1], mailed[i])
  }

  lemma {:induction false} LapseRowsStay(logs: seq<set<int>>, dates: seq<int>, mailed: seq<bool>, i: nat, j: nat)
    requires LapseRun(logs, dates, mailed) && i <= j < |logs|
    ensures logs[i] <= logs[j]
    decreases j
  {
    if i < j {
      LapseRowsStay(logs, dates, mailed, i, j - 1);
      assert LapseStep(logs[j - 1], dates[j - 1], logs[j], mailed[j - 1]);
    }
  }

  /** Lapse notices concern ever later days. */
  lemma LapsesIncrease(logs: seq<set<int>>, dates: seq<int>, mailed: seq<bool>, i: nat, j: nat)
    requires LapseRun(logs, dates, mailed) && i < j < |dates| && mailed[i] && mailed[j]
    ensures dates[i] < dates[j]
  {
    assert LapseStep(logs[i], dates[i], logs[i + 1], mailed[i]);
    assert LapseStep(logs[j], dates[j], logs[j + 1], mailed[j]);
    LapseRowsStay(logs, dates, mailed, i + 1, j);
  }
}
