// Idempotent writes: claims on a key with a lease and a fencing timestamp, takeover,
// completion, release and the reaper, and what holds over every interleaving.

module Idempotency {

  import opened Common

  type RequestId = nat
  type UserId = nat
  type Hash = string
  /** A key is scoped by the user who sent it. */
  datatype Key = Key(user: UserId, text: string)

  // Durations are in nanoseconds.
  const MICROSECOND := 1_000
  const DEFAULT_TTL := 86_400_000_000_000
  const DEFAULT_LEASE := 60_000_000_000
  const DEFAULT_MAX_RESPONSE_BYTES := 262_144

  datatype Policy = Policy(ttl: int, lease: int, maxResponseBytes: int) {
    function Normalized(): (p: Policy)
      ensures p.ttl > 0 && p.lease > 0 && p.maxResponseBytes > 0
      ensures p.ttl == ttl || (ttl <= 0 && p.ttl == DEFAULT_TTL)
      ensures p.lease == lease || (lease <= 0 && p.lease == DEFAULT_LEASE)
      ensures p.maxResponseBytes == maxResponseBytes || (maxResponseBytes <= 0 && p.maxResponseBytes == DEFAULT_MAX_RESPONSE_BYTES)
    {
      Policy(if ttl <= 0 then DEFAULT_TTL else ttl,
             if lease <= 0 then DEFAULT_LEASE else lease,
             if maxResponseBytes <= 0 then DEFAULT_MAX_RESPONSE_BYTES else maxResponseBytes)
    }
  }

  // --- Timestamps -----------------------------------------------------------------

  /** A clock reading cut to whole microseconds. */
  function Micro(t: int): int { t - t % MICROSECOND }

  /** A timestamp as the database keeps it: the nearest microsecond, ties to even. */
  function Stored(t: int): int {
    var q, r := t / MICROSECOND, t % MICROSECOND;
    if r < 500 || (r == 500 && q % 2 == 0) then q * MICROSECOND else (q + 1) * MICROSECOND
  }

  predicate Whole(t: int) { t % MICROSECOND == 0 }

  lemma StoredNear(t: int)
    ensures Whole(Stored(t)) && t - 500 <= Stored(t) <= t + 500
    ensures Whole(t) ==> Stored(t) == t
    ensures t % MICROSECOND == 500 ==> Stored(t) % (2 * MICROSECOND) == 0
  {
  }

  lemma StoredMonotone(t: int, u: int)
    requires t <= u
    ensures Stored(t) <= Stored(u)
  {
  }

  // --- The record table ---------------------------------------------------------------

  datatype State = InProgress | Completed

  datatype Response = Response(status: int, contentType: string, body: string)

  datatype Record = Record(hash: Hash, state: State, response: Option<Response>, createdAt: int, completedAt: Option<int>, expiresAt: int) {
    predicate Replayable() { state.Completed? && response.Some? }
  }

  type Table = map<Key, Record>

  /** A record another request may take over at `now`. */
  predicate Lapsed(p: Policy, rec: Record, now: int) {
    rec.expiresAt <= now || (rec.state.InProgress? && rec.createdAt <= Stored(now - p.lease))
  }

  function FreshRecord(p: Policy, hash: Hash, now: int): Record {
    Record(hash, InProgress, None, now, None, Stored(now + p.ttl))
  }

  predicate Claimable(p: Policy, db: Table, k: Key, now: int) { k !in db || Lapsed(p, db[k], now) }

  /** The upsert that takes a key. */
  function Upsert(p: Policy, db: Table, k: Key, hash: Hash, now: int): Table {
    if Claimable(p, db, k, now) then db[k := FreshRecord(p, hash, now)] else db
  }

  predicate Owned(db: Table, k: Key, fence: int) { k in db && db[k].createdAt == fence }

  function CompleteIn(db: Table, k: Key, fence: int, response: Option<Response>, now: int): Table {
    if Owned(db, k, fence) then db[k := db[k].(state := Completed, response := response, completedAt := Some(now))] else db
  }

  function ReleaseIn(db: Table, k: Key, fence: int): Table {
    if Owned(db, k, fence) then db - {k} else db
  }

  function DeleteExpiredIn(db: Table, before: int): Table {
    map k | k in db && db[k].expiresAt > Stored(before) :: db[k]
  }

  /** What of a response is worth storing. */
  function Capture(p: Policy, r: Response): Option<Response> {
    if r.status > 0 && |r.body| <= p.maxResponseBytes then Some(r) else None
  }

  datatype Outcome = Claimed | Replay(response: Response) | Busy | Mismatch | NotReplayable

  /** The verdict on a record that could not be claimed; a holder that has vanished
      by the time it is read counts as still running. */
  function Judge(existing: Option<Record>, hash: Hash): Outcome {
    if existing.None? then Busy
    else if existing.value.hash != hash then Mismatch
    else if existing.value.state.InProgress? then Busy
    else if !existing.value.Replayable() then NotReplayable
    else Replay(existing.value.response.value)
  }

  function Get(db: Table, k: Key): Option<Record> { if k in db then Some(db[k]) else None }

  // --- Requests and steps ----------------------------------------------------------------

  /** Where a request stands between two calls on the store. */
  datatype Request =
    | Stamped(key: Key, hash: Hash, fence: int)
    | Refused(key: Key, hash: Hash)
    | Running(key: Key, hash: Hash, fence: int)

  datatype Sys = Sys(db: Table, now: int, requests: map<RequestId, Request>)

  datatype Step =
    | Tick(d: nat)
    | Stamp(q: RequestId, key: Key, hash: Hash)
    | Claim(q: RequestId)
    | Read(q: RequestId)
    | Finish(q: RequestId, response: Response)
    | Abandon(q: RequestId)
    | Crash(q: RequestId)
    | Reap(before: int)

  function Without(m: map<RequestId, Request>, q: RequestId): map<RequestId, Request> { m - {q} }

  predicate Runs(s: Sys, q: RequestId) { q in s.requests && s.requests[q].Running? }

  /** One store call of one request, one reaper pass, or the passing of time. */
  ghost predicate Next(p: Policy, s: Sys, e: Step, s': Sys) {
    var rs := s.requests;
    match e
    case Tick(d) => s' == s.(now := s.now + d)
    case Stamp(q, k, h) => q !in rs && s' == s.(requests := rs[q := Stamped(k, h, Micro(s.now))])
    case Claim(q) =>
      && q in rs && rs[q].Stamped?
      && s' == Sys(Upsert(p, s.db, rs[q].key, rs[q].hash, rs[q].fence), s.now,
                   rs[q := if Claimable(p, s.db, rs[q].key, rs[q].fence) then Running(rs[q].key, rs[q].hash, rs[q].fence)
                           else Refused(rs[q].key, rs[q].hash)])
    case Read(q) => q in rs && rs[q].Refused? && s' == s.(requests := Without(rs, q))
    case Finish(q, r) =>
      Runs(s, q) && s' == Sys(CompleteIn(s.db, rs[q].key, rs[q].fence, Capture(p, r), Micro(s.now)), s.now, Without(rs, q))
    case Abandon(q) => Runs(s, q) && s' == Sys(ReleaseIn(s.db, rs[q].key, rs[q].fence), s.now, Without(rs, q))
    case Crash(q) => s' == s.(requests := Without(rs, q))
    case Reap(before) => before <= s.now && s' == s.(db := DeleteExpiredIn(s.db, before))
  }

  ghost predicate Run(p: Policy, states: seq<Sys>, steps: seq<Step>) {
    && |states| == |steps| + 1
    && forall i | 0 <= i < |steps| :: Next(p, states[i], steps[i], states[i + 1])
  }

  /** The record of a claim at `c` has expired for the reaper at `now`. */
  predicate Expired(p: Policy, c: int, now: int) { Stored(c + p.ttl) <= Stored(now) }

  /** A claim stamped at `now` may take over one in progress since `c`. */
  predicate LeaseOver(p: Policy, c: int, now: int) { c <= Stored(Micro(now) - p.lease) }

  /** Too long has passed since the timestamp `c` was taken. */
  predicate Late(p: Policy, c: int, now: int) { Expired(p, c, now) || LeaseOver(p, c, now) }

  /** A claim reaches the store before it is late. */
  ghost predicate Prompt(p: Policy, s: Sys, e: Step) {
    e.Claim? && e.q in s.requests && s.requests[e.q].Stamped? ==> !Late(p, s.requests[e.q].fence, s.now)
  }

  ghost predicate PromptRun(p: Policy, states: seq<Sys>, steps: seq<Step>) {
    Run(p, states, steps) && forall i | 0 <= i < |steps| :: Prompt(p, states[i], steps[i])
  }

  // --- The fence -----------------------------------------------------------------------------

  /** The record is what a claim at `c` left, completed or not. */
  predicate ClaimedAt(p: Policy, rec: Record, c: int) { Whole(c) && rec.createdAt == c && rec.expiresAt == Stored(c + p.ttl) }

  lemma LateStays(p: Policy, c: int, now: int, now': int)
    requires now <= now'
    ensures Expired(p, c, now) ==> Expired(p, c, now')
    ensures LeaseOver(p, c, now) ==> LeaseOver(p, c, now')
  {
    StoredMonotone(now, now');
    MicroMonotone(now, now');
    StoredMonotone(Micro(now) - p.lease, Micro(now') - p.lease);
  }

  lemma MicroMonotone(t: int, u: int)
    requires t <= u
    ensures Micro(t) <= Micro(u) && Whole(Micro(t)) && Micro(t) <= t
    ensures Whole(t) ==> t <= Micro(u) && Micro(t) == t
  {
  }

  /** A record lapses for a claim stamped `f` only once its own claim is late: expired, or in
      progress past its lease. */
  lemma LapsedMeansLate(p: Policy, rec: Record, c: int, f: int, now: int)
    requires ClaimedAt(p, rec, c) && Lapsed(p, rec, f) && Whole(f) && f <= now
    ensures Expired(p, c, now) || (rec.state.InProgress? && LeaseOver(p, c, now))
  {
    hide Stored, Micro;
    StoredNear(f);
    StoredMonotone(f, now);
    MicroMonotone(f, now);
    StoredMonotone(f - p.lease, Micro(now) - p.lease);
  }

  lemma TakeoverRaisesFence(p: Policy, rec: Record, c: int, now: int)
    requires p.ttl > 500 && p.lease > 500 && Whole(now)
    requires ClaimedAt(p, rec, c) && Lapsed(p, rec, now)
    ensures now > c
  {
    StoredNear(c + p.ttl);
    StoredNear(now - p.lease);
  }

  /** Every takeover strictly raises the fence exactly when both the lease and the
      TTL exceed half a microsecond; below that the rounding hides them. */
  lemma FenceStrictIff(p: Policy)
    requires p.ttl > 0 && p.lease > 0
    ensures (forall rec: Record, c: int, now: int | ClaimedAt(p, rec, c) && Whole(now) && Lapsed(p, rec, now) :: now > c)
       <==> (p.ttl > 500 && p.lease > 500)
  {
    if p.ttl > 500 && p.lease > 500 {
      forall rec: Record, c: int, now: int | ClaimedAt(p, rec, c) && Whole(now) && Lapsed(p, rec, now) ensures now > c {
        TakeoverRaisesFence(p, rec, c, now);
      }
    } else if p.ttl <= 500 {
      var rec := FreshRecord(p, "", 0);
      assert ClaimedAt(p, rec, 0) && Lapsed(p, rec, 0);
    } else {
      var rec := FreshRecord(p, "", MICROSECOND * 2);
      var now := MICROSECOND * 2;
      assert Stored(now - p.lease) == now;
      assert ClaimedAt(p, rec, now) && Lapsed(p, rec, now);
    }
  }

  /** The request holds the stored claim. */
  predicate Holds(s: Sys, q: RequestId)
    requires Runs(s, q)
  {
    var r := s.requests[q];
    Owned(s.db, r.key, r.fence)
  }

  ghost predicate WellStamped(p: Policy, s: Sys) {
    && (forall q | q in s.requests && !s.requests[q].Refused? :: Whole(s.requests[q].fence) && s.requests[q].fence <= s.now)
    && (forall k | k in s.db :: ClaimedAt(p, s.db[k], s.db[k].createdAt))
  }

  /** A running request holds the stored claim, or its claim is late. */
  ghost predicate HoldsOrLate(p: Policy, s: Sys) {
    forall q | Runs(s, q) :: Holds(s, q) || Late(p, s.requests[q].fence, s.now)
  }

  ghost predicate DistinctFences(s: Sys) {
    forall q, r | Runs(s, q) && Runs(s, r) && q != r && s.requests[q].key == s.requests[r].key ::
      s.requests[q].fence != s.requests[r].fence
  }

  ghost predicate Fenced(p: Policy, s: Sys) {
    WellStamped(p, s) && HoldsOrLate(p, s) && DistinctFences(s)
  }

  lemma StepKeepsStamps(p: Policy, s: Sys, e: Step, s': Sys)
    requires Next(p, s, e, s') && WellStamped(p, s)
    ensures WellStamped(p, s')
  {
  }

  /** Only a claim makes a request run. */
  lemma RunningFrom(p: Policy, s: Sys, e: Step, s': Sys, q: RequestId)
    requires Next(p, s, e, s') && Runs(s', q)
    ensures if e == Claim(q) then q in s.requests && s.requests[q].Stamped? && Claimable(p, s.db, s.requests[q].key, s.requests[q].fence)
            else Runs(s, q) && s.requests[q] == s'.requests[q]
  {
  }

  /** A claim that the step removes from the table had lapsed, or its holder let it go. */
  lemma StepKeepsHold(p: Policy, s: Sys, e: Step, s': Sys, q: RequestId)
    requires Next(p, s, e, s') && Prompt(p, s, e) && Fenced(p, s)
    requires Runs(s, q) && Runs(s', q) && s'.requests[q] == s.requests[q]
    ensures Holds(s', q) || Late(p, s'.requests[q].fence, s'.now)
  {
    hide Late, Expired, LeaseOver, Stored, Micro, Lapsed, Capture;
    var r := s.requests[q];
    LateMoves(p, s, e, s', r.fence);
    if Holds(s, q) && !Holds(s', q) {
      match e
      case Claim(t) => LapsedIsLate(p, s.db[r.key], r.fence, s.requests[t].fence, s'.now);
      case Reap(before) => ReapedIsLate(p, s.db[r.key], r.fence, before, s'.now);
      case _ =>
    }
  }

  lemma LapsedIsLate(p: Policy, rec: Record, c: int, f: int, now: int)
    requires ClaimedAt(p, rec, c) && Lapsed(p, rec, f) && Whole(f) && f <= now
    ensures Late(p, c, now)
  {
    LapsedMeansLate(p, rec, c, f, now);
  }

  lemma ReapedIsLate(p: Policy, rec: Record, c: int, before: int, now: int)
    requires ClaimedAt(p, rec, c) && rec.expiresAt <= Stored(before) && before <= now
    ensures Expired(p, c, now) && Late(p, c, now)
  {
    StoredMonotone(before, now);
  }

  lemma LateMoves(p: Policy, s: Sys, e: Step, s': Sys, c: int)
    requires Next(p, s, e, s')
    ensures s.now <= s'.now
    ensures Expired(p, c, s.now) ==> Expired(p, c, s'.now)
    ensures LeaseOver(p, c, s.now) ==> LeaseOver(p, c, s'.now)
    ensures Late(p, c, s.now) ==> Late(p, c, s'.now)
  {
    LateStays(p, c, s.now, s'.now);
  }

  lemma StepKeepsHolds(p: Policy, s: Sys, e: Step, s': Sys)
    requires Next(p, s, e, s') && Prompt(p, s, e) && Fenced(p, s)
    ensures HoldsOrLate(p, s')
  {
    forall q | Runs(s', q) ensures Holds(s', q) || Late(p, s'.requests[q].fence, s'.now) {
      RunningFrom(p, s, e, s', q);
      if e != Claim(q) { StepKeepsHold(p, s, e, s', q); }
    }
  }

  /** A prompt, successful claim never repeats the fence of a running request. */
  lemma NewFenceIsNew(p: Policy, s: Sys, q: RequestId, r: RequestId)
    requires Fenced(p, s) && Prompt(p, s, Claim(q))
    requires q in s.requests && s.requests[q].Stamped? && Claimable(p, s.db, s.requests[q].key, s.requests[q].fence)
    requires Runs(s, r) && s.requests[r].key == s.requests[q].key
    ensures s.requests[r].fence != s.requests[q].fence
  {
    hide Late, Lapsed;
    if s.requests[r].fence == s.requests[q].fence {
      assert Holds(s, r);
      LapsedIsLate(p, s.db[s.requests[r].key], s.requests[r].fence, s.requests[q].fence, s.now);
    }
  }

  lemma StepKeepsDistinct(p: Policy, s: Sys, e: Step, s': Sys)
    requires Next(p, s, e, s') && Prompt(p, s, e) && Fenced(p, s)
    ensures DistinctFences(s')
  {
    forall q, r | Runs(s', q) && Runs(s', r) && q != r && s'.requests[q].key == s'.requests[r].key
      ensures s'.requests[q].fence != s'.requests[r].fence
    {
      RunningFrom(p, s, e, s', q);
      RunningFrom(p, s, e, s', r);
      if e == Claim(q) {
        NewFenceIsNew(p, s, q, r);
      } else if e == Claim(r) {
        NewFenceIsNew(p, s, r, q);
      }
    }
  }

  lemma {:induction false} AlwaysFenced(p: Policy, states: seq<Sys>, steps: seq<Step>, j: nat)
    requires PromptRun(p, states, steps) && j < |states| && Fenced(p, states[0])
    ensures Fenced(p, states[j])
  {
    hide Next, Prompt, Fenced;
    if j > 0 {
      AlwaysFenced(p, states, steps, j - 1);
      StepKeepsFenced(p, states[j - 1], steps[j - 1], states[j]);
    }
  }

  lemma StepKeepsFenced(p: Policy, s: Sys, e: Step, s': Sys)
    requires Next(p, s, e, s') && Prompt(p, s, e) && Fenced(p, s)
    ensures Fenced(p, s')
  {
    hide Next, Prompt, HoldsOrLate, DistinctFences;
    StepKeepsStamps(p, s, e, s');
    StepKeepsHolds(p, s, e, s');
    StepKeepsDistinct(p, s, e, s');
  }

  /** At most one running request matches the stored record, in every reachable state. */
  lemma OneHolder(p: Policy, states: seq<Sys>, steps: seq<Step>, j: nat, q: RequestId, r: RequestId)
    requires PromptRun(p, states, steps) && j < |states| && Fenced(p, states[0])
    requires Runs(states[j], q) && Runs(states[j], r) && states[j].requests[q].key == states[j].requests[r].key
    requires Holds(states[j], q) && Holds(states[j], r)
    ensures q == r
  {
    AlwaysFenced(p, states, steps, j);
  }

  // --- A superseded holder is out for good --------------------------------------------------------

  /** The claim of fence `c` is late and the record is not its own. */
  ghost predicate Gone(p: Policy, s: Sys, k: Key, c: int) {
    Late(p, c, s.now) && !Owned(s.db, k, c)
  }

  lemma StepKeepsGone(p: Policy, s: Sys, e: Step, s': Sys, k: Key, c: int)
    requires Next(p, s, e, s') && Prompt(p, s, e) && Gone(p, s, k, c)
    ensures Gone(p, s', k, c)
  {
    hide Late, Lapsed, Stored, Micro, Capture;
    LateMoves(p, s, e, s', c);
  }

  lemma {:induction false} GoneForever(p: Policy, states: seq<Sys>, steps: seq<Step>, i: nat, j: nat, k: Key, c: int)
    requires PromptRun(p, states, steps) && i <= j < |states| && Gone(p, states[i], k, c)
    ensures Gone(p, states[j], k, c)
    decreases j
  {
    hide Next, Prompt, Gone;
    if i < j {
      GoneForever(p, states, steps, i, j - 1, k, c);
      StepKeepsGone(p, states[j - 1], steps[j - 1], states[j], k, c);
    }
  }

  /** Once a running request has lost its claim, its Finish or Abandon, however
      much later, changes no record. */
  lemma SupersededIsHarmless(p: Policy, states: seq<Sys>, steps: seq<Step>, i: nat, j: nat, q: RequestId)
    requires PromptRun(p, states, steps) && Fenced(p, states[0]) && i <= j < |steps|
    requires Runs(states[i], q) && !Holds(states[i], q)
    requires Runs(states[j], q) && states[j].requests[q] == states[i].requests[q]
    requires steps[j] == Abandon(q) || (steps[j].Finish? && steps[j].q == q)
    ensures states[j + 1].db == states[j].db
  {
    AlwaysFenced(p, states, steps, i);
    var r := states[i].requests[q];
    GoneForever(p, states, steps, i, j, r.key, r.fence);
    assert Next(p, states[j], steps[j], states[j + 1]);
  }

  // --- Two claims on one key -----------------------------------------------------------------------

  /** Step `i` of the run is a claim of `q` on `k` that won, with fence `c`. */
  ghost predicate Won(p: Policy, states: seq<Sys>, steps: seq<Step>, i: nat, q: RequestId, k: Key, h: Hash, c: int)
    requires |states| == |steps| + 1
  {
    && i < |steps| && steps[i] == Claim(q) && q in states[i].requests
    && states[i].requests[q] == Stamped(k, h, c) && Claimable(p, states[i].db, k, c)
  }

  /** Step `m` is the holder of the claim giving it up. */
  ghost predicate Abandons(states: seq<Sys>, steps: seq<Step>, m: nat, q: RequestId, k: Key, h: Hash, c: int)
    requires |states| == |steps| + 1
  {
    m < |steps| && steps[m] == Abandon(q) && q in states[m].requests && states[m].requests[q] == Running(k, h, c)
  }

  /** Step `m` is the holder of the claim completing it while it is still the stored one. */
  ghost predicate Completes(states: seq<Sys>, steps: seq<Step>, m: nat, q: RequestId, k: Key, h: Hash, c: int)
    requires |states| == |steps| + 1
  {
    && m < |steps| && steps[m].Finish? && steps[m].q == q && q in states[m].requests
    && states[m].requests[q] == Running(k, h, c) && Owned(states[m].db, k, c)
  }

  /** The record is still the one the claim wrote, and nobody else runs under its fence. */
  ghost predicate Standing(p: Policy, s: Sys, q: RequestId, k: Key, h: Hash, c: int) {
    && Owned(s.db, k, c) && s.db[k].hash == h && ClaimedAt(p, s.db[k], c)
    && forall r | Runs(s, r) && s.requests[r].key == k && s.requests[r].fence == c :: r == q && s.requests[r].hash == h
  }

  ghost predicate AbandonedBetween(states: seq<Sys>, steps: seq<Step>, i: nat, j: nat, q: RequestId, k: Key, h: Hash, c: int)
    requires |states| == |steps| + 1
  {
    exists m :: i < m < j && Abandons(states, steps, m, q, k, h, c)
  }

  ghost predicate CompletedBetween(states: seq<Sys>, steps: seq<Step>, i: nat, j: nat, q: RequestId, k: Key, h: Hash, c: int)
    requires |states| == |steps| + 1
  {
    exists m :: i < m < j && Completes(states, steps, m, q, k, h, c)
  }

  /** What has become of the claim won at step `i` by state `j`. */
  ghost predicate Fate(p: Policy, states: seq<Sys>, steps: seq<Step>, i: nat, j: nat, q: RequestId, k: Key, h: Hash, c: int)
    requires |states| == |steps| + 1 && j < |states|
  {
    || AbandonedBetween(states, steps, i, j, q, k, h, c)
    || Expired(p, c, states[j].now)
    || (LeaseOver(p, c, states[j].now) && Gone(p, states[j], k, c) && !CompletedBetween(states, steps, i, j, q, k, h, c))
    || (Standing(p, states[j], q, k, h, c) && (states[j].db[k].state.Completed? ==> CompletedBetween(states, steps, i, j, q, k, h, c))
        && (states[j].db[k].state.InProgress? ==> !CompletedBetween(states, steps, i, j, q, k, h, c)))
  }

  lemma WonStands(p: Policy, states: seq<Sys>, steps: seq<Step>, i: nat, q: RequestId, k: Key, h: Hash, c: int)
    requires PromptRun(p, states, steps) && Fenced(p, states[0]) && Won(p, states, steps, i, q, k, h, c)
    ensures Standing(p, states[i + 1], q, k, h, c) && states[i + 1].db[k].state.InProgress?
  {
    AlwaysFenced(p, states, steps, i);
    AlwaysFenced(p, states, steps, i + 1);
    assert Next(p, states[i], steps[i], states[i + 1]);
    assert Runs(states[i + 1], q);
  }

  /** The step is a claim on `k` that wins. */
  predicate WinsKey(p: Policy, s: Sys, e: Step, k: Key) {
    && e.Claim? && e.q in s.requests && s.requests[e.q].Stamped? && s.requests[e.q].key == k
    && Claimable(p, s.db, k, s.requests[e.q].fence)
  }

  /** Short of a winning claim, a record that survives a step with its fence still stands. */
  lemma StandingPersists(p: Policy, s: Sys, e: Step, s': Sys, q: RequestId, k: Key, h: Hash, c: int)
    requires Next(p, s, e, s') && Standing(p, s, q, k, h, c) && !WinsKey(p, s, e, k) && k in s'.db
    ensures Standing(p, s', q, k, h, c)
    ensures if e.Finish? && e.q == q && s.requests[q] == Running(k, h, c)
            then s'.db[k].state.Completed? && s'.db[k].response == Capture(p, e.response)
            else s'.db[k] == s.db[k]
  {
    hide Lapsed, Stored, Capture;
    if e.Finish? && s.requests[e.q].key == k && s.requests[e.q].fence == c { assert e.q == q; }
  }

  /** One step from a standing claim: its record stays, its holder gives it up, it
      expires, or its lease has run out and another claim takes it over. */
  lemma StandingSteps(p: Policy, s: Sys, e: Step, s': Sys, q: RequestId, k: Key, h: Hash, c: int)
    requires Next(p, s, e, s') && Prompt(p, s, e) && WellStamped(p, s) && Standing(p, s, q, k, h, c)
    ensures || (e == Abandon(q) && q in s.requests && s.requests[q] == Running(k, h, c))
            || Expired(p, c, s'.now)
            || (LeaseOver(p, c, s'.now) && Gone(p, s', k, c) && s.db[k].state.InProgress? && e.Claim?)
            || (k in s'.db && !WinsKey(p, s, e, k))
  {
    hide Stored, Micro, Capture, Lapsed, Expired, LeaseOver;
    match e
    case Claim(t) =>
      var r := s.requests[t];
      if WinsKey(p, s, e, k) {
        LapsedMeansLate(p, s.db[k], c, r.fence, s.now);
        if !Expired(p, c, s.now) { assert r.fence != c; }
      }
    case Reap(before) =>
      if k !in s'.db { ReapedIsLate(p, s.db[k], c, before, s.now); }
    case Abandon(t) =>
      if s.requests[t].key == k && s.requests[t].fence == c { assert t == q; }
    case _ =>
  }

  lemma BetweenGrows(states: seq<Sys>, steps: seq<Step>, i: nat, j: nat, q: RequestId, k: Key, h: Hash, c: int)
    requires |states| == |steps| + 1 && i < j
    ensures AbandonedBetween(states, steps, i, j + 1, q, k, h, c)
       <==> AbandonedBetween(states, steps, i, j, q, k, h, c) || Abandons(states, steps, j, q, k, h, c)
    ensures CompletedBetween(states, steps, i, j + 1, q, k, h, c)
       <==> CompletedBetween(states, steps, i, j, q, k, h, c) || Completes(states, steps, j, q, k, h, c)
  {
    hide Abandons, Completes;
  }

  lemma FateStep(p: Policy, states: seq<Sys>, steps: seq<Step>, i: nat, j: nat, q: RequestId, k: Key, h: Hash, c: int)
    requires PromptRun(p, states, steps) && Fenced(p, states[0]) && i < j < |steps|
    requires Fate(p, states, steps, i, j, q, k, h, c)
    ensures Fate(p, states, steps, i, j + 1, q, k, h, c)
  {
    hide Next, Prompt, Gone, Standing, Expired, LeaseOver, AbandonedBetween, CompletedBetween, Fenced;
    var s, e, s' := states[j], steps[j], states[j + 1];
    assert Next(p, s, e, s') && Prompt(p, s, e);
    BetweenGrows(states, steps, i, j, q, k, h, c);
    LateMoves(p, s, e, s', c);
    if Expired(p, c, s.now) || AbandonedBetween(states, steps, i, j, q, k, h, c) {
    } else if Gone(p, s, k, c) && LeaseOver(p, c, s.now) && !CompletedBetween(states, steps, i, j, q, k, h, c) {
      StepKeepsGone(p, s, e, s', k, c);
      GoneIsNotOwned(p, s, k, c);
    } else {
      FateOfStanding(p, states, steps, j, q, k, h, c);
    }
  }

  lemma GoneIsNotOwned(p: Policy, s: Sys, k: Key, c: int)
    requires Gone(p, s, k, c)
    ensures !Owned(s.db, k, c)
  {
  }

  lemma FateOfStanding(p: Policy, states: seq<Sys>, steps: seq<Step>, j: nat, q: RequestId, k: Key, h: Hash, c: int)
    requires PromptRun(p, states, steps) && Fenced(p, states[0]) && j < |steps| && Standing(p, states[j], q, k, h, c)
    ensures var s, e, s' := states[j], steps[j], states[j + 1];
      || Abandons(states, steps, j, q, k, h, c)
      || Expired(p, c, s'.now)
      || (LeaseOver(p, c, s'.now) && Gone(p, s', k, c) && s.db[k].state.InProgress? && !Completes(states, steps, j, q, k, h, c))
      || (Standing(p, s', q, k, h, c)
          && s'.db[k].state == if Completes(states, steps, j, q, k, h, c) then Completed else s.db[k].state)
  {
    hide Next, Prompt, Gone, Expired, LeaseOver;
    var s, e, s' := states[j], steps[j], states[j + 1];
    AlwaysFenced(p, states, steps, j);
    assert Next(p, s, e, s') && Prompt(p, s, e);
    StandingSteps(p, s, e, s', q, k, h, c);
    if k in s'.db && !WinsKey(p, s, e, k) {
      StandingPersists(p, s, e, s', q, k, h, c);
      if e.Finish? { OnlyRunnersFinish(p, s, e, s'); }
    }
  }

  lemma OnlyRunnersFinish(p: Policy, s: Sys, e: Step, s': Sys)
    requires Next(p, s, e, s') && e.Finish?
    ensures Runs(s, e.q)
  {
  }

  lemma {:induction false} ClaimFate(p: Policy, states: seq<Sys>, steps: seq<Step>, i: nat, j: nat, q: RequestId, k: Key, h: Hash, c: int)
    requires PromptRun(p, states, steps) && Fenced(p, states[0])
    requires Won(p, states, steps, i, q, k, h, c) && i < j < |states|
    ensures Fate(p, states, steps, i, j, q, k, h, c)
    decreases j
  {
    hide Next, Prompt, Fenced, Standing, Won;
    if j == i + 1 {
      WonStands(p, states, steps, i, q, k, h, c);
    } else {
      ClaimFate(p, states, steps, i, j - 1, q, k, h, c);
      FateStep(p, states, steps, i, j - 1, q, k, h, c);
    }
  }

  /** Over every prompt run, two winning claims on one key are separated by the first
      holder giving up its claim, by the TTL, or by the lease with no completion. */
  lemma TwoClaims(p: Policy, states: seq<Sys>, steps: seq<Step>, i: nat, j: nat,
                  q: RequestId, q': RequestId, k: Key, h: Hash, h': Hash, c: int, c': int)
    requires PromptRun(p, states, steps) && Fenced(p, states[0]) && i < j
    requires Won(p, states, steps, i, q, k, h, c) && Won(p, states, steps, j, q', k, h', c')
    ensures || AbandonedBetween(states, steps, i, j, q, k, h, c)
            || Expired(p, c, states[j].now)
            || (LeaseOver(p, c, states[j].now) && !CompletedBetween(states, steps, i, j, q, k, h, c))
  {
    ClaimFate(p, states, steps, i, j, q, k, h, c);
    AlwaysFenced(p, states, steps, j);
    if Standing(p, states[j], q, k, h, c) {
      hide PromptRun, Expired, LeaseOver, Lapsed;
      LapsedMeansLate(p, states[j].db[k], c, c', states[j].now);
    }
  }

  // --- Replays ------------------------------------------------------------------------------------------

  ghost predicate NoWinBetween(p: Policy, states: seq<Sys>, steps: seq<Step>, i: nat, j: nat, k: Key)
    requires |states| == |steps| + 1 && j <= |steps|
  {
    forall m | i < m < j :: !WinsKey(p, states[m], steps[m], k)
  }

  /** The last winning claim on the key before state `j` was step `i`, by `q`, and the
      record tells its story: in progress, or completed once, at step `m`, with what was kept. */
  ghost predicate Story(p: Policy, states: seq<Sys>, steps: seq<Step>, i: nat, m: nat, j: nat, q: RequestId, k: Key)
    requires |states| == |steps| + 1 && j <= |steps| && k in states[j].db
  {
    var rec := states[j].db[k];
    && i < j && Won(p, states, steps, i, q, k, rec.hash, rec.createdAt) && NoWinBetween(p, states, steps, i, j, k)
    && Standing(p, states[j], q, k, rec.hash, rec.createdAt)
    && (rec.state.InProgress? ==> !CompletedBetween(states, steps, i, j, q, k, rec.hash, rec.createdAt))
    && (rec.state.Completed? ==> && CompletedAt(states, steps, i, m, j, q, k, rec.hash, rec.createdAt)
                                 && !HeldBy(states[j], q, k, rec.createdAt) && rec.response == Capture(p, steps[m].response))
  }

  predicate HeldBy(s: Sys, q: RequestId, k: Key, c: int) { Runs(s, q) && s.requests[q].key == k && s.requests[q].fence == c }

  /** Step `m` is the only completion of the claim between. */
  ghost predicate CompletedAt(states: seq<Sys>, steps: seq<Step>, i: nat, m: nat, j: nat, q: RequestId, k: Key, h: Hash, c: int)
    requires |states| == |steps| + 1
  {
    && i < m < j && Completes(states, steps, m, q, k, h, c)
    && forall other | i < other < j && Completes(states, steps, other, q, k, h, c) :: other == m
  }

  lemma CompletionStays(states: seq<Sys>, steps: seq<Step>, i: nat, m: nat, j: nat, q: RequestId, k: Key, h: Hash, c: int)
    requires |states| == |steps| + 1 && i < j < |states|
    ensures CompletedAt(states, steps, i, m, j, q, k, h, c) && !Completes(states, steps, j, q, k, h, c)
        ==> CompletedAt(states, steps, i, m, j + 1, q, k, h, c)
    ensures !CompletedBetween(states, steps, i, j, q, k, h, c) && Completes(states, steps, j, q, k, h, c)
        ==> CompletedAt(states, steps, i, j, j + 1, q, k, h, c)
  {
    hide Completes;
  }

  /** Where a record comes from in one step. */
  lemma RecordSource(p: Policy, s: Sys, e: Step, s': Sys, k: Key)
    requires Next(p, s, e, s') && k in s'.db && !WinsKey(p, s, e, k)
    ensures k in s.db
  {
    hide Lapsed, Capture, Stored;
  }

  lemma WinWrites(p: Policy, s: Sys, e: Step, s': Sys, k: Key)
    requires Next(p, s, e, s') && WinsKey(p, s, e, k)
    ensures k in s'.db && s'.db[k] == FreshRecord(p, s.requests[e.q].hash, s.requests[e.q].fence)
  {
  }

  lemma {:induction false} RecordHasStory(p: Policy, states: seq<Sys>, steps: seq<Step>, j: nat, k: Key) returns (i: nat, m: nat, q: RequestId)
    requires PromptRun(p, states, steps) && Fenced(p, states[0]) && states[0].db == map[]
    requires j < |states| && k in states[j].db
    ensures Story(p, states, steps, i, m, j, q, k)
  {
    hide Next, Prompt, Fenced, Standing, WinsKey;
    var s, e, s' := states[j - 1], steps[j - 1], states[j];
    assert Next(p, s, e, s');
    if WinsKey(p, s, e, k) {
      WinWrites(p, s, e, s', k);
      i, m := j - 1, 0;
      q := WinnerOf(p, states, steps, i, k);
      WonStands(p, states, steps, i, q, k, s'.db[k].hash, s'.db[k].createdAt);
    } else {
      RecordSource(p, s, e, s', k);
      i, m, q := RecordHasStory(p, states, steps, j - 1, k);
      m := StoryGoesOn(p, states, steps, i, m, j - 1, q, k);
    }
  }

  /** One more step that does not win the key. */
  lemma StoryGoesOn(p: Policy, states: seq<Sys>, steps: seq<Step>, i: nat, m: nat, j: nat, q: RequestId, k: Key) returns (m': nat)
    requires PromptRun(p, states, steps) && j < |steps| && k in states[j].db && Story(p, states, steps, i, m, j, q, k)
    requires !WinsKey(p, states[j], steps[j], k) && k in states[j + 1].db
    ensures Story(p, states, steps, i, m', j + 1, q, k)
  {
    hide Next, Prompt, Standing, WinsKey, CompletedAt, CompletedBetween, HeldBy, Won, Capture;
    var s, e, s' := states[j], steps[j], states[j + 1];
    var h, c := s.db[k].hash, s.db[k].createdAt;
    assert Next(p, s, e, s');
    StandingPersists(p, s, e, s', q, k, h, c);
    StandingKeepsNames(p, s, s', q, k, h, c);
    BetweenGrows(states, steps, i, j, q, k, h, c);
    CompletionStays(states, steps, i, m, j, q, k, h, c);
    HoldingEnds(p, states, steps, j, q, k, h, c);
    if e.Finish? { OnlyRunnersFinish(p, s, e, s'); }
    m' := if Completes(states, steps, j, q, k, h, c) then j else m;
  }

  /** Who holds a standing claim keeps or ends it: only ending it by Finish completes it, and nobody takes it up again. */
  lemma HoldingEnds(p: Policy, states: seq<Sys>, steps: seq<Step>, j: nat, q: RequestId, k: Key, h: Hash, c: int)
    requires |states| == |steps| + 1 && j < |steps| && Next(p, states[j], steps[j], states[j + 1])
    requires Standing(p, states[j], q, k, h, c) && !WinsKey(p, states[j], steps[j], k)
    ensures Completes(states, steps, j, q, k, h, c)
       <==> steps[j].Finish? && steps[j].q == q && q in states[j].requests && states[j].requests[q] == Running(k, h, c)
    ensures Completes(states, steps, j, q, k, h, c) ==> HeldBy(states[j], q, k, c) && !HeldBy(states[j + 1], q, k, c)
    ensures !HeldBy(states[j], q, k, c) ==> !HeldBy(states[j + 1], q, k, c)
  {
    hide Claimable, Capture;
  }

  lemma StandingKeepsNames(p: Policy, s: Sys, s': Sys, q: RequestId, k: Key, h: Hash, c: int)
    requires Standing(p, s, q, k, h, c) && Standing(p, s', q, k, h, c)
    ensures s'.db[k].hash == s.db[k].hash == h && s'.db[k].createdAt == s.db[k].createdAt == c
  {
  }

  lemma WinnerOf(p: Policy, states: seq<Sys>, steps: seq<Step>, i: nat, k: Key) returns (q: RequestId)
    requires |states| == |steps| + 1 && i < |steps| && WinsKey(p, states[i], steps[i], k)
    ensures steps[i] == Claim(q) && q in states[i].requests
    ensures Won(p, states, steps, i, q, k, states[i].requests[q].hash, states[i].requests[q].fence)
  {
    q := steps[i].q;
  }

  /** Every replay returns exactly the response that the key's last winning claim
      finished with, to a request of the same hash. */
  lemma ReplayIsFaithful(p: Policy, states: seq<Sys>, steps: seq<Step>, j: nat, k: Key, h: Hash, response: Response)
      returns (i: nat, m: nat, q: RequestId, c: int)
    requires PromptRun(p, states, steps) && Fenced(p, states[0]) && states[0].db == map[] && j < |states|
    requires Judge(Get(states[j].db, k), h) == Replay(response)
    ensures i < m < j && Won(p, states, steps, i, q, k, h, c) && NoWinBetween(p, states, steps, i, j, k)
    ensures Completes(states, steps, m, q, k, h, c) && steps[m] == Finish(q, response)
    ensures response.status > 0 && |response.body| <= p.maxResponseBytes
  {
    i, m, q := RecordHasStory(p, states, steps, j, k);
    c := states[j].db[k].createdAt;
  }

  /** A key reported as not replayable was completed by its last winning claim, of the same
      hash, with a response that was not captured or was too large. */
  lemma NotReplayableMeansLost(p: Policy, states: seq<Sys>, steps: seq<Step>, j: nat, k: Key, h: Hash)
      returns (i: nat, m: nat, q: RequestId, c: int)
    requires PromptRun(p, states, steps) && Fenced(p, states[0]) && states[0].db == map[] && j < |states|
    requires Judge(Get(states[j].db, k), h) == NotReplayable
    ensures i < m < j && Won(p, states, steps, i, q, k, h, c) && NoWinBetween(p, states, steps, i, j, k)
    ensures Completes(states, steps, m, q, k, h, c)
    ensures steps[m].response.status <= 0 || |steps[m].response.body| > p.maxResponseBytes
  {
    i, m, q := RecordHasStory(p, states, steps, j, k);
    c := states[j].db[k].createdAt;
  }

  /** A response worth keeping was captured and is no larger than the limit. */
  predicate Kept(p: Policy, r: Response) { r.status > 0 && |r.body| <= p.maxResponseBytes }

  /** What a request that could not claim is told, by the record it reads. */
  lemma VerdictIff(existing: Option<Record>, h: Hash)
    ensures var o := Judge(existing, h);
            && (o == Mismatch <==> existing.Some? && existing.value.hash != h)
            && (o == Busy <==> existing.None? || (existing.value.hash == h && existing.value.state.InProgress?))
            && (o == NotReplayable <==>
                  existing.Some? && existing.value.hash == h && existing.value.state.Completed? && existing.value.response.None?)
            && (forall r :: o == Replay(r) <==>
                  existing.Some? && existing.value.hash == h && existing.value.state.Completed? && existing.value.response == Some(r))
            && o != Claimed
  {
  }

  /** What a request that could not claim is told, by what happened in the run: its payload differs exactly
      when the key's last winning claim had another hash; otherwise that claim has not completed, or
      completed once, with the response replayed or one that was not kept. */
  lemma VerdictTellsStory(p: Policy, states: seq<Sys>, steps: seq<Step>, j: nat, k: Key, h: Hash)
      returns (i: nat, m: nat, q: RequestId, won: Hash, c: int)
    requires PromptRun(p, states, steps) && Fenced(p, states[0]) && states[0].db == map[] && j < |states| && k in states[j].db
    ensures i < j && Won(p, states, steps, i, q, k, won, c) && NoWinBetween(p, states, steps, i, j, k)
    ensures CompletedBetween(states, steps, i, j, q, k, won, c) ==> CompletedAt(states, steps, i, m, j, q, k, won, c)
    ensures var o, done := Judge(Get(states[j].db, k), h), CompletedBetween(states, steps, i, j, q, k, won, c);
            && (o == Mismatch <==> won != h)
            && (o == Busy <==> won == h && !done)
            && (o == NotReplayable <==> won == h && done && !Kept(p, steps[m].response))
            && forall r :: o == Replay(r) <==> won == h && done && steps[m].response == r && Kept(p, r)
  {
    hide Next, Prompt, Fenced, Won, NoWinBetween, Standing, HeldBy, CompletedAt, CompletedBetween;
    i, m, q := RecordHasStory(p, states, steps, j, k);
    won, c := states[j].db[k].hash, states[j].db[k].createdAt;
    VerdictIff(Some(states[j].db[k]), h);
    CompletedAtMeans(states, steps, i, m, j, q, k, won, c);
  }

  lemma CompletedAtMeans(states: seq<Sys>, steps: seq<Step>, i: nat, m: nat, j: nat, q: RequestId, k: Key, h: Hash, c: int)
    requires |states| == |steps| + 1
    ensures CompletedAt(states, steps, i, m, j, q, k, h, c) ==> CompletedBetween(states, steps, i, j, q, k, h, c) && m < |steps| && steps[m].Finish?
  {
  }

  // --- A claim that arrives late --------------------------------------------------------------------------

  /** Both settings survive the rounding of stored timestamps. */
  predicate Resolvable(p: Policy) { p.ttl > 500 && p.lease > 500 }

  /** With such settings a claim made at once is prompt. */
  lemma PromptAtOnce(p: Policy, c: int)
    requires Resolvable(p) && Whole(c)
    ensures !Late(p, c, c)
  {
    StoredNear(c);
    StoredNear(c + p.ttl);
    StoredNear(c - p.lease);
  }

  /** A request timeout that stays a microsecond clear of the lease and the TTL makes every
      claim prompt. */
  lemma TimeoutKeepsPrompt(p: Policy, c: int, n: int, timeout: int)
    requires c <= n <= c + timeout && timeout + MICROSECOND < p.ttl && timeout + MICROSECOND < p.lease
    ensures !Late(p, c, n)
  {
    StoredNear(c + p.ttl);
    StoredNear(n);
    MicroMonotone(n, n);
    StoredNear(Micro(n) - p.lease);
  }

  /** A run, with all its claims prompt if so asked. */
  ghost predicate OnTime(p: Policy, states: seq<Sys>, steps: seq<Step>, strict: bool) {
    Run(p, states, steps) && (strict ==> forall i | 0 <= i < |steps| :: Prompt(p, states[i], steps[i]))
  }

  lemma RunExtends(p: Policy, states: seq<Sys>, steps: seq<Step>, strict: bool, e: Step, s: Sys)
    requires OnTime(p, states, steps, strict) && Next(p, states[|states| - 1], e, s)
    ensures Run(p, states + [s], steps + [e])
    ensures strict ==> forall i | 0 <= i < |steps| :: Prompt(p, (states + [s])[i], (steps + [e])[i])
    ensures (strict ==> Prompt(p, states[|states| - 1], e)) ==> OnTime(p, states + [s], steps + [e], strict)
  {
    hide Next, Prompt;
    var ss, es := states + [s], steps + [e];
    forall i | 0 <= i < |es| ensures Next(p, ss[i], es[i], ss[i + 1]) {
      if i < |steps| { assert ss[i] == states[i] && ss[i + 1] == states[i + 1] && es[i] == steps[i]; }
    }
  }

  /** Two requests take their timestamp in the same microsecond; one claims the key at once. */
  lemma TwoStamps(p: Policy, k: Key, c: int, strict: bool) returns (states: seq<Sys>, steps: seq<Step>)
    requires Whole(c) && (strict ==> !Late(p, c, c))
    ensures OnTime(p, states, steps, strict) && states[0] == Sys(map[], c, map[])
    ensures states[|states| - 1]
         == Sys(map[k := FreshRecord(p, "a", c)], c, map[1 := Running(k, "a", c), 2 := Stamped(k, "b", c)])
  {
    hide Lapsed, FreshRecord, Late, Micro;
    MicroMonotone(c, c);
    var r1, r2 := Stamped(k, "a", c), Stamped(k, "b", c);
    var s0 := Sys(map[], c, map[]);
    var s1 := s0.(requests := map[1 := r1]);
    var s2 := s0.(requests := map[1 := r1, 2 := r2]);
    var s3 := Sys(map[k := FreshRecord(p, "a", c)], c, map[1 := Running(k, "a", c), 2 := r2]);
    states, steps := [s0], [];
    RunExtends(p, states, steps, strict, Stamp(1, k, "a"), s1);
    states, steps := states + [s1], steps + [Stamp(1, k, "a")];
    RunExtends(p, states, steps, strict, Stamp(2, k, "b"), s2);
    states, steps := states + [s2], steps + [Stamp(2, k, "b")];
    assert s3.requests == s2.requests[1 := Running(k, "a", c)];
    RunExtends(p, states, steps, strict, Claim(1), s3);
    states, steps := states + [s3], steps + [Claim(1)];
  }

  lemma FreshFacts(p: Policy, h: Hash, c: int)
    ensures FreshRecord(p, h, c).createdAt == c && FreshRecord(p, h, c).state.InProgress?
    ensures FreshRecord(p, h, c).expiresAt == Stored(c + p.ttl)
  {
  }

  /** The first record expires and is reaped. */
  lemma ReapedAway(p: Policy, k: Key, c: int, n: int, strict: bool) returns (states: seq<Sys>, steps: seq<Step>)
    requires Whole(c) && c <= n && Expired(p, c, n) && (strict ==> !Late(p, c, c))
    ensures OnTime(p, states, steps, strict) && states[0] == Sys(map[], c, map[])
    ensures states[|states| - 1] == Sys(map[], n, map[1 := Running(k, "a", c), 2 := Stamped(k, "b", c)])
  {
    hide FreshRecord, Stored;
    FreshFacts(p, "a", c);
    states, steps := TwoStamps(p, k, c, strict);
    var s4 := states[|states| - 1].(now := n);
    RunExtends(p, states, steps, strict, Tick(n - c), s4);
    states, steps := states + [s4], steps + [Tick(n - c)];
    var s5 := s4.(db := map[]);
    RunExtends(p, states, steps, strict, Reap(n), s5);
    states, steps := states + [s5], steps + [Reap(n)];
  }

  /** Or a third request, stamped `m`, takes it over once its lease is over, and gives it up. */
  lemma TakenAway(p: Policy, k: Key, c: int, m: int, n: int, strict: bool) returns (states: seq<Sys>, steps: seq<Step>)
    requires Whole(c) && Whole(m) && c <= m <= n && c <= Stored(m - p.lease) && (strict ==> !Late(p, c, c) && !Late(p, m, m))
    ensures OnTime(p, states, steps, strict) && states[0] == Sys(map[], c, map[])
    ensures states[|states| - 1] == Sys(map[], n, map[1 := Running(k, "a", c), 2 := Stamped(k, "b", c)])
  {
    hide FreshRecord, Stored, Micro, Late;
    states, steps := TwoStamps(p, k, c, strict);
    MicroMonotone(m, m);
    FreshFacts(p, "a", c);
    FreshFacts(p, "c", m);
    assert Lapsed(p, FreshRecord(p, "a", c), m);
    hide Lapsed;
    var run1, r2, r3, run3 := Running(k, "a", c), Stamped(k, "b", c), Stamped(k, "c", m), Running(k, "c", m);
    var s4 := states[|states| - 1].(now := m);
    RunExtends(p, states, steps, strict, Tick(m - c), s4);
    states, steps := states + [s4], steps + [Tick(m - c)];
    var s5 := s4.(requests := map[1 := run1, 2 := r2, 3 := r3]);
    assert s5.requests == s4.requests[3 := r3];
    RunExtends(p, states, steps, strict, Stamp(3, k, "c"), s5);
    states, steps := states + [s5], steps + [Stamp(3, k, "c")];
    var s6 := Sys(map[k := FreshRecord(p, "c", m)], m, map[1 := run1, 2 := r2, 3 := run3]);
    assert s6.requests == s5.requests[3 := run3] && s6.db == s5.db[k := FreshRecord(p, "c", m)];
    RunExtends(p, states, steps, strict, Claim(3), s6);
    states, steps := states + [s6], steps + [Claim(3)];
    states, steps := GivenUp(p, k, c, m, n, strict, states, steps);
  }

  lemma GivenUp(p: Policy, k: Key, c: int, m: int, n: int, strict: bool, before: seq<Sys>, done: seq<Step>)
      returns (states: seq<Sys>, steps: seq<Step>)
    requires OnTime(p, before, done, strict) && m <= n
    requires before[|before| - 1]
          == Sys(map[k := FreshRecord(p, "c", m)], m, map[1 := Running(k, "a", c), 2 := Stamped(k, "b", c), 3 := Running(k, "c", m)])
    ensures OnTime(p, states, steps, strict) && states[0] == before[0]
    ensures states[|states| - 1] == Sys(map[], n, map[1 := Running(k, "a", c), 2 := Stamped(k, "b", c)])
  {
    hide FreshRecord;
    FreshFacts(p, "c", m);
    states, steps := before, done;
    var s7 := Sys(map[], m, map[1 := Running(k, "a", c), 2 := Stamped(k, "b", c)]);
    var s6 := states[|states| - 1];
    assert s7.requests == Without(s6.requests, 3) && s7.db == s6.db - {k};
    RunExtends(p, states, steps, strict, Abandon(3), s7);
    states, steps := states + [s7], steps + [Abandon(3)];
    RunExtends(p, states, steps, strict, Tick(n - m), s7.(now := n));
    states, steps := states + [s7.(now := n)], steps + [Tick(n - m)];
  }

  /** A run, from a start with no requests, whose last step is a claim stamped `c` that arrives at
      `n` and leaves two running requests holding one record. */
  ghost predicate SharedBy(p: Policy, states: seq<Sys>, steps: seq<Step>, c: int, n: int) {
    && Run(p, states, steps) && states[0].requests == map[] && WellStamped(p, states[0]) && |steps| > 0
    && (var last, e := states[|steps| - 1], steps[|steps| - 1];
        e == Claim(2) && last.now == n && 2 in last.requests && last.requests[2].Stamped? && last.requests[2].fence == c)
    && (var s := states[|steps|];
        && Runs(s, 1) && Runs(s, 2) && Holds(s, 1) && Holds(s, 2)
        && s.requests[1].key == s.requests[2].key && s.requests[1].fence == s.requests[2].fence)
  }

  /** And all the claims before that one were prompt. */
  ghost predicate BrokenBy(p: Policy, states: seq<Sys>, steps: seq<Step>, c: int, n: int) {
    SharedBy(p, states, steps, c, n) && forall i | 0 <= i < |steps| - 1 :: Prompt(p, states[i], steps[i])
  }

  /** Once the first record is away, the late claim takes its place. */
  lemma LateClaimArrives(p: Policy, k: Key, c: int, n: int, strict: bool, before: seq<Sys>, done: seq<Step>)
      returns (states: seq<Sys>, steps: seq<Step>)
    requires OnTime(p, before, done, strict) && before[0] == Sys(map[], c, map[])
    requires before[|before| - 1] == Sys(map[], n, map[1 := Running(k, "a", c), 2 := Stamped(k, "b", c)])
    ensures SharedBy(p, states, steps, c, n) && (strict ==> BrokenBy(p, states, steps, c, n))
  {
    hide FreshRecord, Late, Lapsed;
    FreshFacts(p, "b", c);
    states, steps := before, done;
    var s := states[|states| - 1];
    var s' := Sys(map[k := FreshRecord(p, "b", c)], n, map[1 := Running(k, "a", c), 2 := Running(k, "b", c)]);
    assert s'.requests == s.requests[2 := Running(k, "b", c)];
    RunExtends(p, states, steps, strict, Claim(2), s');
    states, steps := states + [s'], steps + [Claim(2)];
  }

  /** Every late arrival can break the fence: for each whole timestamp and each time of arrival
      at which the claim is late there is a run that ends with two holders of one record. */
  lemma LateClaimSharesFence(p: Policy, c: int, n: int) returns (states: seq<Sys>, steps: seq<Step>)
    requires Whole(c) && c <= n && Late(p, c, n)
    ensures SharedBy(p, states, steps, c, n)
  {
    var k := Key(0, "");
    MicroMonotone(c, n);
    MicroMonotone(n, n);
    if Expired(p, c, n) {
      states, steps := ReapedAway(p, k, c, n, false);
    } else {
      states, steps := TakenAway(p, k, c, Micro(n), n, false);
    }
    states, steps := LateClaimArrives(p, k, c, n, false, states, steps);
  }

  // --- The guard is exact -------------------------------------------------------------------------------

  /** A claim stamped `m`, prompt when made at once, can take over one in progress since `c`. */
  predicate TakenBy(p: Policy, c: int, n: int, m: int) {
    Whole(m) && m <= n && c <= Stored(m - p.lease) && !Late(p, m, m)
  }

  /** By `n` a record claimed at `c` may have gone, with only prompt claims about. */
  ghost predicate MayBeGone(p: Policy, c: int, n: int) { Expired(p, c, n) || exists m :: TakenBy(p, c, n, m) }

  /** What prompt claims keep of a running request: its own claim could have been prompt, and it
      holds its record or the record may have gone. */
  ghost predicate Sharp(p: Policy, s: Sys) {
    && WellStamped(p, s) && DistinctFences(s)
    && forall q | Runs(s, q) :: !Late(p, s.requests[q].fence, s.requests[q].fence) && (Holds(s, q) || MayBeGone(p, s.requests[q].fence, s.now))
  }

  lemma GoneIsLate(p: Policy, c: int, n: int)
    requires MayBeGone(p, c, n)
    ensures Late(p, c, n)
  {
    hide Stored, Micro;
    if !Expired(p, c, n) {
      var m :| TakenBy(p, c, n, m);
      MicroMonotone(m, n);
      StoredMonotone(m - p.lease, Micro(n) - p.lease);
    }
  }

  lemma MayBeGoneStays(p: Policy, c: int, n: int, n': int)
    requires n <= n' && MayBeGone(p, c, n)
    ensures MayBeGone(p, c, n')
  {
    hide Stored, Late;
    if Expired(p, c, n) {
      StoredMonotone(n, n');
    } else {
      var m :| TakenBy(p, c, n, m);
      assert TakenBy(p, c, n', m);
    }
  }

  lemma SharpIsFenced(p: Policy, s: Sys)
    requires Sharp(p, s)
    ensures Fenced(p, s)
  {
    hide Late, MayBeGone;
    forall q | Runs(s, q) ensures Holds(s, q) || Late(p, s.requests[q].fence, s.now) {
      if !Holds(s, q) { GoneIsLate(p, s.requests[q].fence, s.now); }
    }
  }

  /** A record that a prompt claim takes over may have gone. */
  lemma TakenOverMayBeGone(p: Policy, rec: Record, c: int, f: int, now: int)
    requires ClaimedAt(p, rec, c) && Lapsed(p, rec, f) && Whole(f) && f <= now && !Late(p, f, now)
    ensures MayBeGone(p, c, now)
  {
    hide Stored;
    StoredNear(f);
    StoredMonotone(f, now);
    LateStays(p, f, f, now);
    if !Expired(p, c, now) { assert TakenBy(p, c, now, f); }
  }

  lemma StepMayLoseRecord(p: Policy, s: Sys, e: Step, s': Sys, q: RequestId)
    requires Next(p, s, e, s') && Prompt(p, s, e) && Sharp(p, s) && Runs(s, q) && Runs(s', q) && s'.requests[q] == s.requests[q]
    ensures Holds(s', q) || MayBeGone(p, s.requests[q].fence, s'.now)
  {
    hide Late, MayBeGone, Stored, Micro, Lapsed, Capture;
    var r := s.requests[q];
    LateMoves(p, s, e, s', r.fence);
    if !Holds(s, q) {
      MayBeGoneStays(p, r.fence, s.now, s'.now);
    } else if !Holds(s', q) {
      match e
      case Claim(t) => TakenOverMayBeGone(p, s.db[r.key], r.fence, s.requests[t].fence, s'.now);
      case Reap(before) => ReapedMayBeGone(p, s.db[r.key], r.fence, before, s'.now);
      case _ =>
    }
  }

  lemma ReapedMayBeGone(p: Policy, rec: Record, c: int, before: int, now: int)
    requires ClaimedAt(p, rec, c) && rec.expiresAt <= Stored(before) && before <= now
    ensures MayBeGone(p, c, now)
  {
    StoredMonotone(before, now);
  }

  lemma StepKeepsSharp(p: Policy, s: Sys, e: Step, s': Sys)
    requires Next(p, s, e, s') && Prompt(p, s, e) && Sharp(p, s)
    ensures Sharp(p, s')
  {
    SharpIsFenced(p, s);
    StepKeepsStamps(p, s, e, s');
    StepKeepsDistinct(p, s, e, s');
    hide Late, MayBeGone, Stored, Micro, Lapsed, Capture, DistinctFences;
    forall q | Runs(s', q)
      ensures !Late(p, s'.requests[q].fence, s'.requests[q].fence) && (Holds(s', q) || MayBeGone(p, s'.requests[q].fence, s'.now))
    {
      RunningFrom(p, s, e, s', q);
      if e == Claim(q) {
        ClaimedAtOnce(p, s.requests[q].fence, s.now);
      } else {
        StepMayLoseRecord(p, s, e, s', q);
      }
    }
  }

  lemma ClaimedAtOnce(p: Policy, c: int, now: int)
    requires c <= now && !Late(p, c, now)
    ensures !Late(p, c, c)
  {
    LateStays(p, c, c, now);
  }

  lemma {:induction false} AlwaysSharp(p: Policy, states: seq<Sys>, steps: seq<Step>, j: nat)
    requires Run(p, states, steps) && j < |states| && Sharp(p, states[0]) && forall i | 0 <= i < j :: Prompt(p, states[i], steps[i])
    ensures Sharp(p, states[j])
  {
    hide Next, Prompt, Sharp;
    if j > 0 {
      AlwaysSharp(p, states, steps, j - 1);
      StepKeepsSharp(p, states[j - 1], steps[j - 1], states[j]);
    }
  }

  lemma BrokenNeeds(p: Policy, states: seq<Sys>, steps: seq<Step>, c: int, n: int)
    requires BrokenBy(p, states, steps, c, n)
    ensures !Late(p, c, c) && MayBeGone(p, c, n)
  {
    hide Late, MayBeGone, Lapsed, Stored, Micro;
    var j := |steps| - 1;
    assert Sharp(p, states[0]);
    AlwaysSharp(p, states, steps, j);
    var s, s' := states[j], states[j + 1];
    assert Next(p, s, Claim(2), s');
    RunningFrom(p, s, Claim(2), s', 1);
    RunningFrom(p, s, Claim(2), s', 2);
    if Holds(s, 1) {
      LapsedIsLate(p, s.db[s.requests[1].key], c, c, c);
    }
  }

  /** The guard is exact, for all settings: a claim stamped `c` that arrives at `n` can leave two
      requests with one fence, in a run in which every other claim is prompt, exactly when a
      prompt claim at `c` was possible at all and its record may have gone by `n`. For settings
      that survive the rounding of timestamps, that is exactly when the claim is late. */
  lemma LateIffBreakable(p: Policy, c: int, n: int)
    requires p.ttl > 0 && p.lease > 0 && Whole(c) && c <= n
    ensures (exists states: seq<Sys>, steps: seq<Step> :: BrokenBy(p, states, steps, c, n)) <==> !Late(p, c, c) && MayBeGone(p, c, n)
    ensures Resolvable(p) ==> (!Late(p, c, c) && MayBeGone(p, c, n) <==> Late(p, c, n))
  {
    hide BrokenBy, SharedBy, Late, Stored, Micro;
    if !Late(p, c, c) && MayBeGone(p, c, n) {
      var states, steps := BreakWhenGone(p, c, n);
    }
    forall states: seq<Sys>, steps: seq<Step> | BrokenBy(p, states, steps, c, n) ensures !Late(p, c, c) && MayBeGone(p, c, n) {
      BrokenNeeds(p, states, steps, c, n);
    }
    if MayBeGone(p, c, n) { GoneIsLate(p, c, n); }
    if Resolvable(p) { LateMayBeGone(p, c, n); }
  }

  lemma BreakWhenGone(p: Policy, c: int, n: int) returns (states: seq<Sys>, steps: seq<Step>)
    requires p.lease > 0 && Whole(c) && c <= n && !Late(p, c, c) && MayBeGone(p, c, n)
    ensures BrokenBy(p, states, steps, c, n)
  {
    hide Stored, BrokenBy, SharedBy, OnTime, Late;
    var k := Key(0, "");
    if Expired(p, c, n) {
      states, steps := ReapedAway(p, k, c, n, true);
    } else {
      var m :| TakenBy(p, c, n, m);
      StoredNear(m);
      StoredMonotone(m - p.lease, m);
      states, steps := TakenAway(p, k, c, m, n, true);
    }
    states, steps := LateClaimArrives(p, k, c, n, true, states, steps);
  }

  lemma LateMayBeGone(p: Policy, c: int, n: int)
    requires Resolvable(p) && Whole(c) && c <= n
    ensures !Late(p, c, c) && (Late(p, c, n) ==> MayBeGone(p, c, n))
  {
    hide Stored, Micro;
    PromptAtOnce(p, c);
    MicroMonotone(n, n);
    PromptAtOnce(p, Micro(n));
    if LeaseOver(p, c, n) { assert TakenBy(p, c, n, Micro(n)); }
  }

  // --- The service --------------------------------------------------------------------------------------------

  class Repository {
    var db: Table

    constructor ()
      ensures db == map[]
    {
      db := map[];
    }

    /** None when the claim succeeded, otherwise the record that stands in the way. */
    method Claim(k: Key, rec: Record, staleBefore: int) returns (existing: Option<Record>)
      modifies this
      ensures var free := k !in old(db) || old(db)[k].expiresAt <= rec.createdAt
                          || (old(db)[k].state.InProgress? && old(db)[k].createdAt <= Stored(staleBefore));
              if free then existing == None && db == old(db)[k := rec.(state := InProgress, response := None, completedAt := None, expiresAt := Stored(rec.expiresAt))]
              else db == old(db) && existing == Some(old(db)[k])
    {
      if k in db {
        var held := db[k];
        if !(held.expiresAt <= rec.createdAt || (held.state.InProgress? && held.createdAt <= Stored(staleBefore))) {
          return Some(held);
        }
      }
      db := db[k := Record(rec.hash, InProgress, None, rec.createdAt, None, Stored(rec.expiresAt))];
      return None;
    }

    method Complete(k: Key, claimedAt: int, response: Option<Response>, completedAt: int)
      modifies this
      ensures db == CompleteIn(old(db), k, claimedAt, response, completedAt)
    {
      if k in db && db[k].createdAt == claimedAt {
        db := db[k := db[k].(state := Completed, response := response, completedAt := Some(completedAt))];
      }
    }

    method Release(k: Key, claimedAt: int)
      modifies this
      ensures db == ReleaseIn(old(db), k, claimedAt)
    {
      if k in db && db[k].createdAt == claimedAt {
        db := db - {k};
      }
    }
  }

  class Service {
    const repo: Repository
    const policy: Policy

    constructor (repo: Repository, ttl: int, lease: int, maxResponseBytes: int)
      ensures this.repo == repo && policy == Policy(ttl, lease, maxResponseBytes).Normalized()
    {
      this.repo := repo;
      policy := Policy(ttl, lease, maxResponseBytes).Normalized();
    }

    /** The verdict, and the fence to finish with when the key was claimed. */
    method Begin(k: Key, hash: Hash, clock: int) returns (outcome: Outcome, claimedAt: int)
      modifies repo
      ensures claimedAt == Micro(clock)
      ensures repo.db == Upsert(policy, old(repo.db), k, hash, claimedAt)
      ensures outcome == if Claimable(policy, old(repo.db), k, claimedAt) then Claimed else Judge(Get(old(repo.db), k), hash)
    {
      claimedAt := Micro(clock);
      var rec := Record(hash, InProgress, None, claimedAt, None, claimedAt + policy.ttl);
      var existing := repo.Claim(k, rec, claimedAt - policy.lease);
      if existing.None? { return Claimed, claimedAt; }
      if existing.value.hash != hash { return Mismatch, claimedAt; }
      if existing.value.state.InProgress? { return Busy, claimedAt; }
      if !existing.value.Replayable() { return NotReplayable, claimedAt; }
      return Replay(existing.value.response.value), claimedAt;
    }

    method Finish(k: Key, claimedAt: int, response: Response, clock: int)
      modifies repo
      ensures repo.db == CompleteIn(old(repo.db), k, claimedAt, Capture(policy, response), Micro(clock))
    {
      var kept: Option<Response> := None;
      if response.status > 0 && |response.body| <= policy.maxResponseBytes { kept := Some(response); }
      repo.Complete(k, claimedAt, kept, Micro(clock));
    }

    method Abandon(k: Key, claimedAt: int)
      modifies repo
      ensures repo.db == ReleaseIn(old(repo.db), k, claimedAt)
    {
      repo.Release(k, claimedAt);
    }
  }
}
