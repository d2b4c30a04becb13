// Refresh-token sessions: the token table, the service calls as threads that make
// one repository call per step, and what holds over every interleaving.

module Sessions {

  import opened Common

  type UserId = nat
  type SessionId = nat
  type TokenId = nat
  type ThreadId = nat

  const DEFAULT_MAX_SESSIONS := 5
  const DEFAULT_REUSE_GRACE := 30_000_000_000

  datatype Policy = Policy(maxPerUser: int, reuseGrace: int) {
    function Normalized(): (p: Policy)
      ensures p.maxPerUser >= 1 && p.reuseGrace > 0
      ensures p.maxPerUser == maxPerUser || (maxPerUser <= 0 && p.maxPerUser == DEFAULT_MAX_SESSIONS)
      ensures p.reuseGrace == reuseGrace || (reuseGrace <= 0 && p.reuseGrace == DEFAULT_REUSE_GRACE)
    {
      Policy(if maxPerUser <= 0 then DEFAULT_MAX_SESSIONS else maxPerUser,
             if reuseGrace <= 0 then DEFAULT_REUSE_GRACE else reuseGrace)
    }
  }

  // --- The token table -----------------------------------------------------------

  datatype Token = Token(user: UserId, session: SessionId, expires: int, revoked: bool, rotatedAt: Option<int>, lastUsed: int)

  /** The rows, keyed by token hash. Fresh hashes and session ids are drawn in
      increasing order, so a larger id is a later row. */
  datatype Table = Table(rows: map<TokenId, Token>, nextToken: TokenId, nextSession: SessionId)

  predicate LiveToken(t: Token, now: int) { !t.revoked && t.expires > now }

  /** The session holds a live token. */
  ghost predicate Live(db: Table, now: int, x: SessionId) {
    exists id :: id in db.rows && db.rows[id].session == x && LiveToken(db.rows[id], now)
  }

  predicate LiveFor(db: Table, now: int, u: UserId, x: SessionId) {
    exists id | id in db.rows :: db.rows[id].session == x && db.rows[id].user == u && LiveToken(db.rows[id], now)
  }

  function Insert(db: Table, u: UserId, x: SessionId, expires: int, now: int): Table {
    Table(db.rows[db.nextToken := Token(u, x, expires, false, None, now)], db.nextToken + 1, db.nextSession)
  }

  /** Create on a session id never used before. */
  function CreateFresh(db: Table, u: UserId, expires: int, now: int): Table {
    Insert(db, u, db.nextSession, expires, now).(nextSession := db.nextSession + 1)
  }

  /** CreateInLiveSession; None is ErrNotFound. */
  function CreateInLive(db: Table, now: int, u: UserId, x: SessionId, expires: int): Option<Table> {
    if LiveFor(db, now, u, x) then Some(Insert(db, u, x, expires, now)) else None
  }

  /** MarkRotated; a row that is gone is left alone (ErrNotFound). */
  function MarkRotated(db: Table, id: TokenId, now: int): Table {
    if id !in db.rows then db
    else
      var t := db.rows[id];
      db.(rows := db.rows[id := t.(revoked := true, rotatedAt := if t.rotatedAt.Some? then t.rotatedAt else Some(now))])
  }

  /** Revoke the user's rows whose session is in `xs`. */
  function RevokeIn(db: Table, u: UserId, xs: set<SessionId>): Table {
    db.(rows := map id | id in db.rows ::
      var t := db.rows[id];
      if t.user == u && t.session in xs then t.(revoked := true) else t)
  }

  function SessionsOf(db: Table, u: UserId): set<SessionId> {
    set id | id in db.rows && db.rows[id].user == u :: db.rows[id].session
  }

  function RevokeSession(db: Table, u: UserId, x: SessionId): Table { RevokeIn(db, u, {x}) }

  function RevokeAllForUser(db: Table, u: UserId): Table { RevokeIn(db, u, SessionsOf(db, u)) }

  function RevokeSessionsExcept(db: Table, u: UserId, keep: SessionId): Table { RevokeIn(db, u, SessionsOf(db, u) - {keep}) }

  function DeleteForUser(db: Table, u: UserId): Table {
    db.(rows := map id | id in db.rows && db.rows[id].user != u :: db.rows[id])
  }

  function DeleteExpired(db: Table, now: int): Table {
    db.(rows := map id | id in db.rows && db.rows[id].expires >= now :: db.rows[id])
  }

  function TouchSession(db: Table, x: SessionId, now: int): Table {
    db.(rows := map id | id in db.rows ::
      if db.rows[id].session == x then db.rows[id].(lastUsed := now) else db.rows[id])
  }

  function LiveSessions(db: Table, now: int, u: UserId): set<SessionId> {
    set id | id in db.rows && db.rows[id].user == u && LiveToken(db.rows[id], now) :: db.rows[id].session
  }

  /** Some live row of session `x` was used no earlier than every live row of session `y`. */
  ghost predicate UsedNoEarlier(db: Table, now: int, u: UserId, x: SessionId, y: SessionId) {
    exists id :: id in db.rows && db.rows[id].user == u && db.rows[id].session == x && LiveToken(db.rows[id], now)
      && forall other | other in db.rows && db.rows[other].user == u && db.rows[other].session == y
                        && LiveToken(db.rows[other], now) :: db.rows[other].lastUsed <= db.rows[id].lastUsed
  }

  /** EvictOldestSessions: the least recently used live sessions go, until at most `keep` remain. */
  ghost predicate Evicts(db: Table, now: int, u: UserId, keep: int, evicted: set<SessionId>) {
    var live := LiveSessions(db, now, u);
    && evicted <= live
    && |live - evicted| == (if |live| <= keep then |live| else if keep < 0 then 0 else keep)
    && forall x, y | x in live - evicted && y in evicted :: UsedNoEarlier(db, now, u, x, y)
  }

  // --- Threads and steps ------------------------------------------------------------

  /** Where a service call stands between two repository calls. */
  datatype Thread =
    | Looked(id: TokenId, stored: Token)
    | Minting(id: TokenId, user: UserId, session: SessionId, rotate: bool)
    | Touching(id: TokenId, newId: TokenId, session: SessionId, rotate: bool)
    | Marking(id: TokenId, newId: TokenId)
    | ReuseFound(user: UserId, session: SessionId)
    | LoginStarted(user: UserId)
    | LoginEvicted(user: UserId)
    | LoggingOut(user: UserId, session: SessionId)

  datatype Sys = Sys(db: Table, now: int, threads: map<ThreadId, Thread>)

  datatype Step =
    | Tick(d: nat)
    | Lookup(t: ThreadId, id: TokenId)
    | Decide(t: ThreadId)
    | Mint(t: ThreadId, ttl: int)
    | Touch(t: ThreadId)
    | TouchFails(t: ThreadId)
    | Mark(t: ThreadId)
    | RevokeReused(t: ThreadId)
    | StartLogin(t: ThreadId, user: UserId)
    | EvictForLogin(t: ThreadId, evicted: set<SessionId>)
    | EvictFails(t: ThreadId)
    | FinishLogin(t: ThreadId, ttl: int)
    | StartLogout(t: ThreadId, id: TokenId)
    | FinishLogout(t: ThreadId)
    | OwnerRevokes(user: UserId, session: SessionId)
    | OwnerRevokesOthers(user: UserId, keep: SessionId)
    | PasswordChanged(user: UserId)
    | AccountCleared(user: UserId)
    | Sweep
    | Crash(t: ThreadId)

  datatype Verdict = MayMint(rotate: bool) | IsExpired | IsRevoked | IsReused

  function WithinGrace(p: Policy, stored: Token, now: int): bool {
    stored.rotatedAt.Some? && now - stored.rotatedAt.value <= p.Normalized().reuseGrace
  }

  /** What RefreshToken makes of the stored row it read. */
  function Judge(p: Policy, stored: Token, now: int): Verdict {
    if stored.expires < now then IsExpired
    else if !stored.revoked then MayMint(true)
    else if stored.rotatedAt.None? then IsRevoked
    else if !WithinGrace(p, stored, now) then IsReused
    else MayMint(false)
  }

  function Without(m: map<ThreadId, Thread>, t: ThreadId): map<ThreadId, Thread> { m - {t} }

  /** One step of one thread, of the owner, of the sweeper or of the clock. */
  ghost predicate Next(p: Policy, s: Sys, e: Step, s': Sys) {
    var th := s.threads;
    match e
    case Tick(d) => s' == s.(now := s.now + d)
    case Lookup(t, id) =>
      t !in th && id in s.db.rows && s' == s.(threads := th[t := Looked(id, s.db.rows[id])])
    case Decide(t) =>
      && t in th && th[t].Looked?
      && (var stored := th[t].stored;
          match Judge(p, stored, s.now)
          case MayMint(rotate) => s' == s.(threads := th[t := Minting(th[t].id, stored.user, stored.session, rotate)])
          case IsReused => s' == s.(threads := th[t := ReuseFound(stored.user, stored.session)])
          case _ => s' == s.(threads := Without(th, t)))
    case Mint(t, ttl) =>
      && t in th && th[t].Minting?
      && (var r := CreateInLive(s.db, s.now, th[t].user, th[t].session, s.now + ttl);
          if r.None? then s' == s.(threads := Without(th, t))
          else s' == Sys(r.value, s.now, th[t := Touching(th[t].id, s.db.nextToken, th[t].session, th[t].rotate)]))
    case Touch(t) =>
      && t in th && th[t].Touching?
      && s' == Sys(TouchSession(s.db, th[t].session, s.now), s.now,
                   if th[t].rotate then th[t := Marking(th[t].id, th[t].newId)] else Without(th, t))
    case TouchFails(t) =>
      && t in th && th[t].Touching?
      && s' == s.(threads := if th[t].rotate then th[t := Marking(th[t].id, th[t].newId)] else Without(th, t))
    case Mark(t) =>
      t in th && th[t].Marking? && s' == Sys(MarkRotated(s.db, th[t].id, s.now), s.now, Without(th, t))
    case RevokeReused(t) =>
      t in th && th[t].ReuseFound? && s' == Sys(RevokeSession(s.db, th[t].user, th[t].session), s.now, Without(th, t))
    case StartLogin(t, u) => t !in th && s' == s.(threads := th[t := LoginStarted(u)])
    case EvictForLogin(t, evicted) =>
      && t in th && th[t].LoginStarted? && Evicts(s.db, s.now, th[t].user, p.Normalized().maxPerUser - 1, evicted)
      && s' == Sys(RevokeIn(s.db, th[t].user, evicted), s.now, th[t := LoginEvicted(th[t].user)])
    case EvictFails(t) =>
      t in th && th[t].LoginStarted? && s' == s.(threads := th[t := LoginEvicted(th[t].user)])
    case FinishLogin(t, ttl) =>
      t in th && th[t].LoginEvicted? && s' == Sys(CreateFresh(s.db, th[t].user, s.now + ttl, s.now), s.now, Without(th, t))
    case StartLogout(t, id) =>
      t !in th && id in s.db.rows && s' == s.(threads := th[t := LoggingOut(s.db.rows[id].user, s.db.rows[id].session)])
    case FinishLogout(t) =>
      t in th && th[t].LoggingOut? && s' == Sys(RevokeSession(s.db, th[t].user, th[t].session), s.now, Without(th, t))
    case OwnerRevokes(u, x) => s' == s.(db := RevokeSession(s.db, u, x))
    case OwnerRevokesOthers(u, keep) => s' == s.(db := RevokeSessionsExcept(s.db, u, keep))
    case PasswordChanged(u) => s' == s.(db := RevokeAllForUser(s.db, u))
    case AccountCleared(u) => s' == s.(db := DeleteForUser(s.db, u))
    case Sweep => s' == s.(db := DeleteExpired(s.db, s.now))
    case Crash(t) => s' == s.(threads := Without(th, t))
  }

  /** A run: states joined by steps, from any start. */
  ghost predicate Run(p: Policy, states: seq<Sys>, steps: seq<Step>) {
    && |states| == |steps| + 1
    && forall i | 0 <= i < |steps| :: Next(p, states[i], steps[i], states[i + 1])
  }

  /** Ids in use were drawn before. */
  ghost predicate Drawn(db: Table) {
    forall id | id in db.rows :: id < db.nextToken && db.rows[id].session < db.nextSession
  }

  // --- A dead session stays dead --------------------------------------------------------

  /** The session has existed and holds no live token. */
  ghost predicate Dead(s: Sys, x: SessionId) {
    x < s.db.nextSession && !Live(s.db, s.now, x)
  }

  /** Every row of the new table is a row of the old one, live only if that was. */
  ghost predicate Weaker(db: Table, now: int, db': Table, now': int) {
    forall id | id in db'.rows ::
      && id in db.rows && db'.rows[id].session == db.rows[id].session && db'.rows[id].user == db.rows[id].user
      && (LiveToken(db'.rows[id], now') ==> LiveToken(db.rows[id], now))
  }

  ghost predicate AddsRow(s: Sys, e: Step, s': Sys) {
    s'.db != s.db && (e.Mint? || e.FinishLogin?)
  }

  /** Only minting and finishing a login add rows; no other step brings a row back to life. */
  lemma StepWeakens(p: Policy, s: Sys, e: Step, s': Sys)
    requires Next(p, s, e, s') && !AddsRow(s, e, s')
    ensures Weaker(s.db, s.now, s'.db, s'.now)
    ensures s'.db.nextSession == s.db.nextSession && s'.db.nextToken == s.db.nextToken
  {
    hide Judge, Evicts, LiveFor;
  }

  lemma MintNeedsLife(p: Policy, s: Sys, e: Step, s': Sys)
    requires Next(p, s, e, s') && e.Mint? && AddsRow(s, e, s')
    ensures e.t in s.threads && s.threads[e.t].Minting?
    ensures var th := s.threads[e.t];
            LiveFor(s.db, s.now, th.user, th.session) && s'.db == Insert(s.db, th.user, th.session, s.now + e.ttl, s.now)
    ensures Live(s.db, s.now, s.threads[e.t].session)
  {
  }

  lemma StepKeepsDead(p: Policy, s: Sys, e: Step, s': Sys, x: SessionId)
    requires Next(p, s, e, s') && Dead(s, x)
    ensures Dead(s', x)
  {
    if !AddsRow(s, e, s') {
      StepWeakens(p, s, e, s');
    } else if e.Mint? {
      MintNeedsLife(p, s, e, s');
    }
  }

  /** In every interleaving a session that has lost its last live token never
      becomes live again. */
  lemma {:induction false} DeadForever(p: Policy, states: seq<Sys>, steps: seq<Step>, i: nat, j: nat, x: SessionId)
    requires Run(p, states, steps) && i <= j < |states| && Dead(states[i], x)
    ensures Dead(states[j], x)
    decreases j
  {
    hide Next, Dead;
    if i < j {
      DeadForever(p, states, steps, i, j - 1, x);
      StepKeepsDead(p, states[j - 1], steps[j - 1], states[j], x);
    }
  }

  /** So a refresh that was in flight when the session ended gets no token: its
      mint step finds no live session, whatever happened in between. */
  lemma NoMintAfterDeath(p: Policy, states: seq<Sys>, steps: seq<Step>, i: nat, j: nat, x: SessionId, t: ThreadId)
    requires Run(p, states, steps) && i <= j < |steps| && Dead(states[i], x)
    requires steps[j].Mint? && steps[j].t == t
    requires t in states[j].threads && states[j].threads[t].Minting? && states[j].threads[t].session == x
    ensures states[j + 1].db == states[j].db && t !in states[j + 1].threads
  {
    DeadForever(p, states, steps, i, j, x);
    if AddsRow(states[j], steps[j], states[j + 1]) {
      MintNeedsLife(p, states[j], steps[j], states[j + 1]);
    }
  }

  /** The session exists and all its rows belong to `u`. */
  ghost predicate OwnedBy(db: Table, x: SessionId, u: UserId) {
    x < db.nextSession && forall id | id in db.rows && db.rows[id].session == x :: db.rows[id].user == u
  }

  /** A call names the owner of the session it acts on. */
  ghost predicate NamesOwner(db: Table, th: Thread) {
    match th
    case Looked(_, stored) => OwnedBy(db, stored.session, stored.user)
    case Minting(_, u, x, _) => OwnedBy(db, x, u)
    case ReuseFound(u, x) => OwnedBy(db, x, u)
    case LoggingOut(u, x) => OwnedBy(db, x, u)
    case _ => true
  }

  /** A session has one owner, and every call knows it. */
  ghost predicate Owned(s: Sys) {
    && Drawn(s.db)
    && (forall id | id in s.db.rows :: OwnedBy(s.db, s.db.rows[id].session, s.db.rows[id].user))
    && forall t | t in s.threads :: NamesOwner(s.db, s.threads[t])
  }

  lemma StepKeepsOwner(p: Policy, s: Sys, e: Step, s': Sys, x: SessionId, u: UserId)
    requires Next(p, s, e, s') && Owned(s) && OwnedBy(s.db, x, u)
    ensures OwnedBy(s'.db, x, u)
  {
    if !AddsRow(s, e, s') {
      StepWeakens(p, s, e, s');
    } else if e.Mint? {
      MintNeedsLife(p, s, e, s');
      assert NamesOwner(s.db, s.threads[e.t]);
    }
  }

  /** A row of the new table is an old row, or a minted one, or opens a fresh session. */
  lemma StepKeepsOwners(p: Policy, s: Sys, e: Step, s': Sys)
    requires Next(p, s, e, s') && Owned(s)
    ensures forall id | id in s'.db.rows :: OwnedBy(s'.db, s'.db.rows[id].session, s'.db.rows[id].user)
  {
    forall id | id in s'.db.rows ensures OwnedBy(s'.db, s'.db.rows[id].session, s'.db.rows[id].user) {
      var t := s'.db.rows[id];
      if !AddsRow(s, e, s') {
        StepWeakens(p, s, e, s');
        StepKeepsOwner(p, s, e, s', t.session, t.user);
      } else if e.Mint? {
        MintNeedsLife(p, s, e, s');
        assert NamesOwner(s.db, s.threads[e.t]);
        StepKeepsOwner(p, s, e, s', t.session, t.user);
      } else if id in s.db.rows {
        StepKeepsOwner(p, s, e, s', t.session, t.user);
      }
    }
  }

  lemma ThreadKeepsOwner(p: Policy, s: Sys, e: Step, s': Sys, t: ThreadId)
    requires Next(p, s, e, s') && Owned(s) && t in s.threads
    ensures NamesOwner(s'.db, s.threads[t])
  {
    match s.threads[t]
    case Looked(_, stored) => StepKeepsOwner(p, s, e, s', stored.session, stored.user);
    case Minting(_, u, x, _) => StepKeepsOwner(p, s, e, s', x, u);
    case ReuseFound(u, x) => StepKeepsOwner(p, s, e, s', x, u);
    case LoggingOut(u, x) => StepKeepsOwner(p, s, e, s', x, u);
    case _ =>
  }

  lemma StepKeepsOwned(p: Policy, s: Sys, e: Step, s': Sys)
    requires Next(p, s, e, s') && Owned(s)
    ensures Owned(s')
  {
    StepKeepsDrawn(p, s, e, s');
    StepKeepsOwners(p, s, e, s');
    forall t | t in s'.threads ensures NamesOwner(s'.db, s'.threads[t]) {
      if t in s.threads {
        ThreadKeepsOwner(p, s, e, s', t);
      }
    }
  }

  lemma {:induction false} AlwaysOwned(p: Policy, states: seq<Sys>, steps: seq<Step>, j: nat)
    requires Run(p, states, steps) && j < |states| && Owned(states[0])
    ensures Owned(states[j])
  {
    hide Next, Owned;
    if j > 0 {
      AlwaysOwned(p, states, steps, j - 1);
      StepKeepsOwned(p, states[j - 1], steps[j - 1], states[j]);
    }
  }

  /** Once a logout has returned, its session is dead for the rest of the run. */
  lemma LogoutIsFinal(p: Policy, states: seq<Sys>, steps: seq<Step>, i: nat, j: nat, u: UserId, x: SessionId)
    requires Run(p, states, steps) && Owned(states[0]) && i < j < |states|
    requires steps[i].FinishLogout? && steps[i].t in states[i].threads && states[i].threads[steps[i].t] == LoggingOut(u, x)
    ensures Dead(states[j], x)
  {
    AlwaysOwned(p, states, steps, i);
    assert NamesOwner(states[i].db, LoggingOut(u, x));
    assert Next(p, states[i], steps[i], states[i + 1]);
    assert states[i + 1].db == RevokeSession(states[i].db, u, x);
    assert Dead(states[i + 1], x);
    DeadForever(p, states, steps, i + 1, j, x);
  }

  /** Once a replayed token has been answered, its session is dead for the rest of the run. */
  lemma ReuseIsFinal(p: Policy, states: seq<Sys>, steps: seq<Step>, i: nat, j: nat, u: UserId, x: SessionId)
    requires Run(p, states, steps) && Owned(states[0]) && i < j < |states|
    requires steps[i].RevokeReused? && steps[i].t in states[i].threads && states[i].threads[steps[i].t] == ReuseFound(u, x)
    ensures Dead(states[j], x)
  {
    AlwaysOwned(p, states, steps, i);
    assert NamesOwner(states[i].db, ReuseFound(u, x));
    assert Next(p, states[i], steps[i], states[i + 1]);
    assert states[i + 1].db == RevokeSession(states[i].db, u, x);
    assert Dead(states[i + 1], x);
    DeadForever(p, states, steps, i + 1, j, x);
  }

  /** Once a password change has returned, every session the user then had is dead for the rest
      of the run, whatever refreshes were in flight. */
  lemma PasswordChangeIsFinal(p: Policy, states: seq<Sys>, steps: seq<Step>, i: nat, j: nat, u: UserId, x: SessionId)
    requires Run(p, states, steps) && Owned(states[0]) && i < j < |states|
    requires steps[i] == PasswordChanged(u) && x in SessionsOf(states[i].db, u)
    ensures Dead(states[j], x)
  {
    AlwaysOwned(p, states, steps, i);
    var id :| id in states[i].db.rows && states[i].db.rows[id].user == u && states[i].db.rows[id].session == x;
    assert OwnedBy(states[i].db, x, u);
    assert Next(p, states[i], steps[i], states[i + 1]);
    assert states[i + 1].db == RevokeAllForUser(states[i].db, u);
    assert Dead(states[i + 1], x);
    DeadForever(p, states, steps, i + 1, j, x);
  }

  // --- Overlapping refreshes never lose a session ---------------------------------------------

  /** The latest row of the session. */
  ghost predicate Newest(db: Table, x: SessionId, id: TokenId) {
    && id in db.rows && db.rows[id].session == x
    && forall other | other in db.rows && db.rows[other].session == x :: other <= id
  }

  /** If `id` is a row of the session, a later row of the session exists. */
  ghost predicate Superseded(db: Table, x: SessionId, id: TokenId) {
    id in db.rows && db.rows[id].session == x ==> exists later :: later in db.rows && db.rows[later].session == x && id < later
  }

  ghost predicate ThreadCoherent(db: Table, x: SessionId, th: Thread) {
    match th
    case Looked(id, stored) => id < db.nextToken && (id in db.rows ==> db.rows[id].session == stored.session)
    case Minting(id, u, y, _) => id < db.nextToken && (id in db.rows ==> db.rows[id].session == y)
    case Touching(id, _, _, _) => id < db.nextToken && Superseded(db, x, id)
    case Marking(id, _) => id < db.nextToken && Superseded(db, x, id)
    case _ => true
  }

  /** The newest token of the session is unrotated, and every thread about to call
      MarkRotated has already created a later token. */
  ghost predicate Kept(s: Sys, x: SessionId) {
    && Drawn(s.db)
    && (exists id :: Newest(s.db, x, id) && !s.db.rows[id].revoked)
    && forall t | t in s.threads :: ThreadCoherent(s.db, x, s.threads[t])
  }

  /** Nothing revokes the session in this step, nor deletes its newest row. What happens to
      other sessions, and to the session's older rows, is free. */
  ghost predicate Gentle(s: Sys, e: Step, x: SessionId) {
    match e
    case RevokeReused(t) => t in s.threads && s.threads[t].ReuseFound? ==> s.threads[t].session != x
    case EvictForLogin(_, evicted) => x !in evicted
    case FinishLogout(t) => t in s.threads && s.threads[t].LoggingOut? ==> s.threads[t].session != x
    case OwnerRevokes(u, y) => y != x || x !in SessionsOf(s.db, u)
    case OwnerRevokesOthers(u, keep) => keep == x || x !in SessionsOf(s.db, u)
    case PasswordChanged(u) => x !in SessionsOf(s.db, u)
    case AccountCleared(u) => x !in SessionsOf(s.db, u)
    case Sweep => forall id | Newest(s.db, x, id) :: s.db.rows[id].expires >= s.now
    case _ => true
  }

  lemma NewestAfterInsert(db: Table, u: UserId, x: SessionId, expires: int, now: int)
    requires Drawn(db)
    ensures Newest(Insert(db, u, x, expires, now), x, db.nextToken)
  {
  }

  /** The new table keeps the session's newest row, and what it adds is later. */
  ghost predicate Grows(db: Table, db': Table, x: SessionId) {
    && db.nextToken <= db'.nextToken
    && (forall id | id in db'.rows && id in db.rows :: db'.rows[id].session == db.rows[id].session)
    && (forall id | Newest(db, x, id) :: id in db'.rows)
    && (forall id | id in db'.rows && id !in db.rows :: id >= db.nextToken)
  }

  lemma StepKeepsDrawn(p: Policy, s: Sys, e: Step, s': Sys)
    requires Next(p, s, e, s') && Drawn(s.db)
    ensures Drawn(s'.db)
  {
    if !AddsRow(s, e, s') {
      StepWeakens(p, s, e, s');
    } else if e.Mint? {
      MintNeedsLife(p, s, e, s');
    }
  }

  lemma StepOnlyAppends(p: Policy, s: Sys, e: Step, s': Sys)
    requires Next(p, s, e, s') && Drawn(s.db)
    ensures s.db.nextToken <= s'.db.nextToken
    ensures forall id | id in s'.db.rows && id in s.db.rows :: s'.db.rows[id].session == s.db.rows[id].session
    ensures forall id | id in s'.db.rows && id !in s.db.rows :: id >= s.db.nextToken
  {
    if !AddsRow(s, e, s') {
      StepWeakens(p, s, e, s');
    } else if e.Mint? {
      MintNeedsLife(p, s, e, s');
    }
  }

  /** Rows go only when an account is cleared or the expired ones are swept. */
  lemma StepDeletes(p: Policy, s: Sys, e: Step, s': Sys, id: TokenId)
    requires Next(p, s, e, s') && Drawn(s.db) && id in s.db.rows && id !in s'.db.rows
    ensures (e.AccountCleared? && s.db.rows[id].user == e.user) || (e.Sweep? && s.db.rows[id].expires < s.now)
  {
    hide Judge, Evicts, LiveFor;
  }

  lemma GentleStepGrows(p: Policy, s: Sys, e: Step, s': Sys, x: SessionId)
    requires Next(p, s, e, s') && Gentle(s, e, x) && Drawn(s.db)
    ensures Grows(s.db, s'.db, x)
  {
    StepOnlyAppends(p, s, e, s');
    forall id | Newest(s.db, x, id) ensures id in s'.db.rows {
      if id !in s'.db.rows { StepDeletes(p, s, e, s', id); }
    }
  }

  /** Coherent threads stay coherent while the table keeps the newest row. */
  lemma CoherentUnderGrowth(db: Table, db': Table, x: SessionId, newest: TokenId, th: Thread)
    requires Drawn(db) && ThreadCoherent(db, x, th) && Grows(db, db', x) && Newest(db, x, newest)
    ensures ThreadCoherent(db', x, th)
  {
    assert newest in db'.rows && db'.rows[newest].session == x;
  }

  lemma StepKeepsThreads(p: Policy, s: Sys, e: Step, s': Sys, x: SessionId)
    requires Next(p, s, e, s') && Kept(s, x) && Gentle(s, e, x)
    ensures forall t | t in s'.threads :: ThreadCoherent(s'.db, x, s'.threads[t])
  {
    GentleStepGrows(p, s, e, s', x);
    var newest :| Newest(s.db, x, newest) && !s.db.rows[newest].revoked;
    forall t | t in s'.threads ensures ThreadCoherent(s'.db, x, s'.threads[t]) {
      if t in s.threads {
        CoherentUnderGrowth(s.db, s'.db, x, newest, s.threads[t]);
        ThreadMoves(p, s, e, s', x, t);
      }
    }
  }

  /** A thread's own step leaves it coherent. */
  lemma ThreadMoves(p: Policy, s: Sys, e: Step, s': Sys, x: SessionId, t: ThreadId)
    requires Next(p, s, e, s') && Drawn(s.db) && t in s.threads && t in s'.threads
    requires ThreadCoherent(s.db, x, s.threads[t]) && ThreadCoherent(s'.db, x, s.threads[t])
    ensures ThreadCoherent(s'.db, x, s'.threads[t])
  {
    if e.Mint? && e.t == t {
      var th, newId := s.threads[t], s.db.nextToken;
      if AddsRow(s, e, s') {
        MintNeedsLife(p, s, e, s');
        assert newId in s'.db.rows && s'.db.rows[newId].session == th.session && th.id < newId;
      }
    }
  }

  /** Which rows of the session a gentle step may revoke: the one a thread marks, and that
      one has a successor. */
  lemma OnlyMarkRevokes(p: Policy, s: Sys, e: Step, s': Sys, x: SessionId, id: TokenId)
    requires Next(p, s, e, s') && Kept(s, x) && Gentle(s, e, x)
    requires Newest(s.db, x, id) && !s.db.rows[id].revoked
    ensures id in s'.db.rows && !s'.db.rows[id].revoked
  {
    GentleStepGrows(p, s, e, s', x);
    hide Judge, Evicts, LiveFor, Grows;
    if e.Mark? {
      var th := s.threads[e.t];
      assert Superseded(s.db, x, th.id);
      assert th.id != id;
    }
    if e.EvictForLogin? || e.OwnerRevokes? || e.OwnerRevokesOthers? || e.PasswordChanged? {
      assert s.db.rows[id].session == x;
    }
  }

  lemma StepKeepsSession(p: Policy, s: Sys, e: Step, s': Sys, x: SessionId)
    requires Next(p, s, e, s') && Kept(s, x) && Gentle(s, e, x)
    ensures Kept(s', x)
  {
    StepKeepsDrawn(p, s, e, s');
    StepKeepsThreads(p, s, e, s', x);
    var id :| Newest(s.db, x, id) && !s.db.rows[id].revoked;
    OnlyMarkRevokes(p, s, e, s', x, id);
    if e.Mint? && AddsRow(s, e, s') && s.threads[e.t].session == x {
      NewestAfterInsert(s.db, s.threads[e.t].user, x, s.now + e.ttl, s.now);
      assert Newest(s'.db, x, s.db.nextToken);
    } else {
      StepAddsNoRow(p, s, e, s', x);
      assert Newest(s'.db, x, id);
    }
  }

  /** Only a mint on the session itself adds a row to an existing session. */
  lemma StepAddsNoRow(p: Policy, s: Sys, e: Step, s': Sys, x: SessionId)
    requires Next(p, s, e, s') && Drawn(s.db) && x < s.db.nextSession
    requires !(e.Mint? && AddsRow(s, e, s') && s.threads[e.t].session == x)
    ensures forall id | id in s'.db.rows && s'.db.rows[id].session == x :: id in s.db.rows && s.db.rows[id].session == x
  {
    if !AddsRow(s, e, s') {
      StepWeakens(p, s, e, s');
    } else if e.Mint? {
      MintNeedsLife(p, s, e, s');
    }
  }

  /** While nothing revokes the session or deletes its newest token, overlapping refreshes
      keep that token unrotated throughout the run, whatever happens to other sessions. */
  lemma {:induction false} RefreshesKeepSession(p: Policy, states: seq<Sys>, steps: seq<Step>, j: nat, x: SessionId)
    requires Run(p, states, steps) && j < |states| && Kept(states[0], x)
    requires forall i | 0 <= i < |steps| :: Gentle(states[i], steps[i], x)
    ensures Kept(states[j], x)
  {
    hide Next, Gentle, Kept;
    if j > 0 {
      RefreshesKeepSession(p, states, steps, j - 1, x);
      StepKeepsSession(p, states[j - 1], steps[j - 1], states[j], x);
    }
  }

  /** And while its newest token has not expired, the session is live. */
  lemma RefreshesKeepSessionLive(p: Policy, states: seq<Sys>, steps: seq<Step>, j: nat, x: SessionId)
    requires Run(p, states, steps) && j < |states| && Kept(states[0], x)
    requires forall i | 0 <= i < |steps| :: Gentle(states[i], steps[i], x)
    requires forall id | Newest(states[j].db, x, id) :: states[j].db.rows[id].expires > states[j].now
    ensures Live(states[j].db, states[j].now, x)
  {
    hide Next, Gentle;
    RefreshesKeepSession(p, states, steps, j, x);
    var id :| Newest(states[j].db, x, id) && !states[j].db.rows[id].revoked;
    assert LiveToken(states[j].db.rows[id], states[j].now);
  }

  /** Starting point: a fresh login with nothing in flight. */
  lemma FreshLoginIsKept(db: Table, u: UserId, expires: int, now: int)
    requires Drawn(db)
    ensures Kept(Sys(CreateFresh(db, u, expires, now), now, map[]), db.nextSession)
  {
    assert Newest(CreateFresh(db, u, expires, now), db.nextSession, db.nextToken);
  }

  // --- The session cap ---------------------------------------------------------------------------

  /** Logins of the user between evicting and creating. */
  ghost function Pending(s: Sys, u: UserId): set<ThreadId> {
    set t | t in s.threads && s.threads[t] == LoginEvicted(u)
  }

  ghost function LiveCount(s: Sys, u: UserId): nat { |LiveSessions(s.db, s.now, u)| }

  ghost predicate Capped(p: Policy, s: Sys, u: UserId, k: nat) {
    && Drawn(s.db)
    && LiveCount(s, u) + |Pending(s, u)| <= p.Normalized().maxPerUser - 1 + k
  }

  lemma {:induction false} SubsetCard<T>(a: set<T>, b: set<T>)
    requires a <= b
    ensures |a| <= |b|
  {
    if a != {} {
      var x :| x in a;
      SubsetCard(a - {x}, b - {x});
    }
  }

  /** Except for a finishing login, no step gives the user a live session it did not have. */
  lemma LiveSessionsShrink(p: Policy, s: Sys, e: Step, s': Sys, u: UserId)
    requires Next(p, s, e, s') && Drawn(s.db)
    requires !(e.FinishLogin? && s.threads[e.t].user == u)
    ensures LiveSessions(s'.db, s'.now, u) <= LiveSessions(s.db, s.now, u)
  {
    if !AddsRow(s, e, s') {
      StepWeakens(p, s, e, s');
    } else if e.Mint? {
      MintNeedsLife(p, s, e, s');
      MintAddsNoSession(s.db, s.now, s.threads[e.t].user, s.threads[e.t].session, s.now + e.ttl, u);
    }
  }

  lemma MintAddsNoSession(db: Table, now: int, v: UserId, x: SessionId, expires: int, u: UserId)
    requires LiveFor(db, now, v, x) && Drawn(db)
    ensures LiveSessions(Insert(db, v, x, expires, now), now, u) <= LiveSessions(db, now, u)
  {
    var db' := Insert(db, v, x, expires, now);
    forall y | y in LiveSessions(db', now, u) ensures y in LiveSessions(db, now, u) {
      var id :| id in db'.rows && db'.rows[id].user == u && LiveToken(db'.rows[id], now) && db'.rows[id].session == y;
      if id == db.nextToken {
        var prior :| prior in db.rows && db.rows[prior].session == x && db.rows[prior].user == v && LiveToken(db.rows[prior], now);
      }
    }
  }

  lemma EvictionMakesRoom(db: Table, now: int, u: UserId, keep: nat, evicted: set<SessionId>)
    requires Evicts(db, now, u, keep, evicted)
    ensures LiveSessions(RevokeIn(db, u, evicted), now, u) == LiveSessions(db, now, u) - evicted
    ensures |LiveSessions(RevokeIn(db, u, evicted), now, u)| <= keep
  {
    var db' := RevokeIn(db, u, evicted);
    forall x | x in LiveSessions(db, now, u) - evicted ensures x in LiveSessions(db', now, u) {
      var id :| id in db.rows && db.rows[id].user == u && LiveToken(db.rows[id], now) && db.rows[id].session == x;
      assert db'.rows[id] == db.rows[id];
    }
    forall x | x in LiveSessions(db', now, u) ensures x in LiveSessions(db, now, u) - evicted {
      var id :| id in db'.rows && db'.rows[id].user == u && LiveToken(db'.rows[id], now) && db'.rows[id].session == x;
      assert db'.rows[id] == db.rows[id];
    }
  }

  /** Eviction takes the least recently used: a session used later than all the others stays when any does. */
  lemma EvictionSparesLatest(db: Table, now: int, u: UserId, keep: int, evicted: set<SessionId>, x: SessionId, last: TokenId)
    requires Evicts(db, now, u, keep, evicted) && keep >= 1
    requires last in db.rows && db.rows[last].user == u && db.rows[last].session == x && LiveToken(db.rows[last], now)
    requires forall id | id in db.rows && db.rows[id].user == u && db.rows[id].session != x && LiveToken(db.rows[id], now) ::
               db.rows[id].lastUsed < db.rows[last].lastUsed
    ensures x !in evicted
  {
    hide UsedNoEarlier;
    SomeStay(db, now, u, keep, evicted, x);
    forall y | y != x ensures !UsedNoEarlier(db, now, u, y, x) { UsedEarlier(db, now, u, x, y, last); }
  }

  lemma SomeStay(db: Table, now: int, u: UserId, keep: int, evicted: set<SessionId>, x: SessionId)
    requires Evicts(db, now, u, keep, evicted) && keep >= 1 && x in LiveSessions(db, now, u)
    ensures exists y :: y in LiveSessions(db, now, u) - evicted
  {
    hide UsedNoEarlier;
    var live := LiveSessions(db, now, u);
    SubsetCard({x}, live);
    assert live - evicted != {};
  }

  lemma UsedEarlier(db: Table, now: int, u: UserId, x: SessionId, y: SessionId, last: TokenId)
    requires last in db.rows && db.rows[last].user == u && db.rows[last].session == x && LiveToken(db.rows[last], now)
    requires y != x && forall id | id in db.rows && db.rows[id].user == u && db.rows[id].session != x && LiveToken(db.rows[id], now) ::
               db.rows[id].lastUsed < db.rows[last].lastUsed
    ensures !UsedNoEarlier(db, now, u, y, x)
  {
  }

  lemma LoginAddsOne(s: Sys, t: ThreadId, u: UserId, expires: int)
    requires t in Pending(s, u)
    ensures |LiveSessions(CreateFresh(s.db, u, expires, s.now), s.now, u)| <= LiveCount(s, u) + 1
    ensures |Pending(s.(threads := Without(s.threads, t)), u)| == |Pending(s, u)| - 1
  {
    var db' := CreateFresh(s.db, u, expires, s.now);
    var before := LiveSessions(s.db, s.now, u) + {s.db.nextSession};
    forall x | x in LiveSessions(db', s.now, u) ensures x in before {
      var id :| id in db'.rows && db'.rows[id].user == u && LiveToken(db'.rows[id], s.now) && db'.rows[id].session == x;
    }
    SubsetCard(LiveSessions(db', s.now, u), before);
    assert Pending(s.(threads := Without(s.threads, t)), u) == Pending(s, u) - {t};
  }

  /** The user's live sessions and pending logins stay within the cap plus one less than the logins in flight. */
  lemma StepKeepsCap(p: Policy, s: Sys, e: Step, s': Sys, u: UserId, k: nat)
    requires Next(p, s, e, s') && Capped(p, s, u, k)
    requires !FailedEviction(s, e, u)
    requires |Pending(s', u)| <= k
    ensures Capped(p, s', u, k)
  {
    StepKeepsDrawn(p, s, e, s');
    var max := p.Normalized().maxPerUser;
    if e.EvictForLogin? && s.threads[e.t].user == u {
      EvictionMakesRoom(s.db, s.now, u, max - 1, e.evicted);
    } else if e.FinishLogin? && s.threads[e.t].user == u {
      LoginAddsOne(s, e.t, u, s.now + e.ttl);
      assert Pending(s', u) == Pending(s.(threads := Without(s.threads, e.t)), u);
    } else {
      LiveSessionsShrink(p, s, e, s', u);
      SubsetCard(LiveSessions(s'.db, s'.now, u), LiveSessions(s.db, s.now, u));
      assert Pending(s', u) <= Pending(s, u);
      SubsetCard(Pending(s', u), Pending(s, u));
    }
  }

  /** The step is an eviction that failed for a login of this user. */
  ghost predicate FailedEviction(s: Sys, e: Step, u: UserId) {
    e.EvictFails? && e.t in s.threads && s.threads[e.t] == LoginStarted(u)
  }

  /** With at most `k` logins of the user past eviction at any time, and evictions
      succeeding, live sessions never exceed MaxPerUser - 1 + k. */
  lemma {:induction false} SessionCap(p: Policy, states: seq<Sys>, steps: seq<Step>, j: nat, u: UserId, k: nat)
    requires Run(p, states, steps) && j < |states| && Capped(p, states[0], u, k)
    requires forall i | 0 <= i < |states| :: |Pending(states[i], u)| <= k
    requires forall i | 0 <= i < |steps| :: !FailedEviction(states[i], steps[i], u)
    ensures Capped(p, states[j], u, k)
    ensures LiveCount(states[j], u) <= p.Normalized().maxPerUser - 1 + k
  {
    hide Next, FailedEviction;
    if j > 0 {
      SessionCap(p, states, steps, j - 1, u, k);
      StepKeepsCap(p, states[j - 1], steps[j - 1], states[j], u, k);
    }
  }

  // --- The service calls, run alone ------------------------------------------------------------

  datatype Outcome = Issued(newId: TokenId) | ErrInvalidToken | ErrExpired | ErrRevoked | ErrReuseDetected

  /** RefreshToken with nobody else about: the table it leaves and its answer. */
  function RefreshAlone(p: Policy, db: Table, now: int, id: TokenId, ttl: int): (Table, Outcome) {
    if id !in db.rows then (db, ErrInvalidToken)
    else
      var stored := db.rows[id];
      match Judge(p, stored, now)
      case IsExpired => (db, ErrExpired)
      case IsRevoked => (db, ErrRevoked)
      case IsReused => (RevokeSession(db, stored.user, stored.session), ErrReuseDetected)
      case MayMint(rotate) =>
        var r := CreateInLive(db, now, stored.user, stored.session, now + ttl);
        if r.None? then (db, ErrRevoked)
        else
          var touched := TouchSession(r.value, stored.session, now);
          (if rotate then MarkRotated(touched, id, now) else touched, Issued(db.nextToken))
  }

  // --- When a presented token is served, refused or taken for a replay -----------------------------

  /** Superseded so long ago that it can only be a replay. */
  predicate Replayed(p: Policy, t: Token, now: int) {
    t.expires >= now && t.revoked && t.rotatedAt.Some? && now - t.rotatedAt.value > p.Normalized().reuseGrace
  }

  /** Superseded a moment ago: a retry of the refresh that superseded it. */
  predicate Retried(p: Policy, t: Token, now: int) {
    t.expires >= now && t.revoked && t.rotatedAt.Some? && now - t.rotatedAt.value <= p.Normalized().reuseGrace
  }

  /** What the rows of the session look like after a token was issued. */
  ghost predicate IssuedIn(db: Table, now: int, id: TokenId, ttl: int, db': Table)
    requires id in db.rows
  {
    var t := db.rows[id];
    && db'.rows.Keys == db.rows.Keys + {db.nextToken} && db'.nextToken == db.nextToken + 1
    && db'.rows[db.nextToken] == Token(t.user, t.session, now + ttl, false, None, now)
    && forall other | other in db.rows ::
         var was, row := db.rows[other], db'.rows[other];
         && row.lastUsed == (if was.session == t.session then now else was.lastUsed)
         && (if other == id && !t.revoked then row == was.(lastUsed := now, revoked := true, rotatedAt := if t.rotatedAt.Some? then t.rotatedAt else Some(now))
             else row == was.(lastUsed := row.lastUsed))
  }

  /** Every outcome of a refresh, by the presented row and the clock alone. */
  lemma RefreshOutcomes(p: Policy, db: Table, now: int, id: TokenId, ttl: int)
    ensures RefreshAlone(p, db, now, id, ttl).1 == ErrInvalidToken <==> id !in db.rows
    ensures id in db.rows ==>
              var t, o := db.rows[id], RefreshAlone(p, db, now, id, ttl).1;
              var live := exists other | other in db.rows :: var r := db.rows[other]; r.user == t.user && r.session == t.session && !r.revoked && r.expires > now;
              && (o == ErrExpired <==> t.expires < now)
              && (o == ErrReuseDetected <==>
                    t.expires >= now && t.revoked && t.rotatedAt.Some? && now - t.rotatedAt.value > p.Normalized().reuseGrace)
              && (o == ErrRevoked <==>
                    || (t.expires >= now && t.revoked && t.rotatedAt.None?)
                    || ((Retried(p, t, now) || (t.expires >= now && !t.revoked)) && !live))
              && (o.Issued? <==>
                    (Retried(p, t, now) || (t.expires >= now && !t.revoked)) && live)
  {
  }

  /** And what each leaves behind: a new token and, unless it was a retry, the presented one
      superseded; the whole session revoked; or nothing changed. */
  lemma RefreshEffects(p: Policy, db: Table, now: int, id: TokenId, ttl: int)
    requires Drawn(db)
    ensures var (db', o) := RefreshAlone(p, db, now, id, ttl);
            && (o.Issued? ==> o == Issued(db.nextToken) && id in db.rows && IssuedIn(db, now, id, ttl, db'))
            && (o == ErrReuseDetected ==>
                  && id in db.rows && db'.rows.Keys == db.rows.Keys
                  && forall other | other in db.rows ::
                       var t := db.rows[other];
                       db'.rows[other] == if t.user == db.rows[id].user && t.session == db.rows[id].session then t.(revoked := true) else t)
            && (!o.Issued? && o != ErrReuseDetected ==> db' == db)
  {
  }

  /** What each way of ending sessions does to a row: it revokes those meant and changes nothing else. */
  lemma RevokesExactly(db: Table, u: UserId, x: SessionId, id: TokenId)
    requires id in db.rows
    ensures var t := db.rows[id];
            && id in RevokeSession(db, u, x).rows && id in RevokeAllForUser(db, u).rows && id in RevokeSessionsExcept(db, u, x).rows
            && RevokeSession(db, u, x).rows[id] == t.(revoked := t.revoked || (t.user == u && t.session == x))
            && RevokeAllForUser(db, u).rows[id] == t.(revoked := t.revoked || t.user == u)
            && RevokeSessionsExcept(db, u, x).rows[id] == t.(revoked := t.revoked || (t.user == u && t.session != x))
  {
  }

  /** The step at which a refresh in flight makes up its mind. */
  lemma DecisionIff(p: Policy, s: Sys, t: ThreadId, s': Sys)
    requires Next(p, s, Decide(t), s')
    ensures var stored := s.threads[t].stored;
            && (t in s'.threads && s'.threads[t].ReuseFound? <==> Replayed(p, stored, s.now))
            && (t in s'.threads && s'.threads[t].Minting? && !s'.threads[t].rotate <==> Retried(p, stored, s.now))
            && (t in s'.threads && s'.threads[t].Minting? && s'.threads[t].rotate <==> stored.expires >= s.now && !stored.revoked)
            && (t !in s'.threads <==> stored.expires < s.now || (stored.revoked && stored.rotatedAt.None?))
            && (t in s'.threads ==> s'.threads[t].user == stored.user && s'.threads[t].session == stored.session)
  {
  }

  lemma {:induction false} ClockRuns(p: Policy, states: seq<Sys>, steps: seq<Step>, i: nat, j: nat)
    requires Run(p, states, steps) && i <= j < |states|
    ensures states[i].now <= states[j].now
    decreases j
  {
    if i < j {
      ClockRuns(p, states, steps, i, j - 1);
      assert Next(p, states[j - 1], steps[j - 1], states[j]);
    }
  }

  /** A call that holds a row looked it up. */
  lemma {:induction false} LookedUp(p: Policy, states: seq<Sys>, steps: seq<Step>, j: nat, t: ThreadId) returns (k: nat)
    requires Run(p, states, steps) && j < |states| && t !in states[0].threads
    requires t in states[j].threads && states[j].threads[t].Looked?
    ensures k < j && steps[k] == Lookup(t, states[j].threads[t].id)
    ensures steps[k].id in states[k].db.rows && states[k].db.rows[steps[k].id] == states[j].threads[t].stored
  {
    assert Next(p, states[j - 1], steps[j - 1], states[j]);
    if t in states[j - 1].threads && states[j - 1].threads[t] == states[j].threads[t] {
      k := LookedUp(p, states, steps, j - 1, t);
    } else {
      k := j - 1;
    }
  }

  /** A call that found a replay decided so. */
  lemma {:induction false} DecidedReplay(p: Policy, states: seq<Sys>, steps: seq<Step>, j: nat, t: ThreadId) returns (i: nat)
    requires Run(p, states, steps) && j < |states| && t !in states[0].threads
    requires t in states[j].threads && states[j].threads[t].ReuseFound?
    ensures i < j && steps[i] == Decide(t) && t in states[i].threads && states[i].threads[t].Looked?
    ensures var stored := states[i].threads[t].stored;
            && Replayed(p, stored, states[i].now)
            && states[j].threads[t] == ReuseFound(stored.user, stored.session)
  {
    assert Next(p, states[j - 1], steps[j - 1], states[j]);
    if t in states[j - 1].threads && states[j - 1].threads[t] == states[j].threads[t] {
      i := DecidedReplay(p, states, steps, j - 1, t);
    } else {
      i := j - 1;
    }
  }

  /** A row carries the time at which a refresh superseded it, or had it from the start. */
  lemma StepRotates(p: Policy, s: Sys, e: Step, s': Sys, id: TokenId)
    requires Next(p, s, e, s') && id in s'.db.rows && s'.db.rows[id].rotatedAt.Some?
    ensures || (id in s.db.rows && s.db.rows[id].rotatedAt == s'.db.rows[id].rotatedAt)
            || (e.Mark? && e.t in s.threads && s.threads[e.t].Marking? && s.threads[e.t].id == id && s'.db.rows[id].rotatedAt == Some(s.now))
  {
    hide Judge, Evicts, LiveFor;
  }

  lemma {:induction false} SupersededWhen(p: Policy, states: seq<Sys>, steps: seq<Step>, j: nat, id: TokenId) returns (m: nat)
    requires Run(p, states, steps) && j < |states|
    requires id in states[j].db.rows && states[j].db.rows[id].rotatedAt.Some?
    ensures m <= j
    ensures || (m == 0 && id in states[0].db.rows && states[0].db.rows[id].rotatedAt == states[j].db.rows[id].rotatedAt)
            || (m < j && SupersededBy(states[m], steps[m], id) && states[j].db.rows[id].rotatedAt == Some(states[m].now))
  {
    hide Next;
    if j == 0 { return 0; }
    StepRotates(p, states[j - 1], steps[j - 1], states[j], id);
    if id in states[j - 1].db.rows && states[j - 1].db.rows[id].rotatedAt == states[j].db.rows[id].rotatedAt {
      m := SupersededWhen(p, states, steps, j - 1, id);
    } else {
      m := j - 1;
    }
  }

  /** The step in which a refresh marks the token it has replaced. */
  ghost predicate SupersededBy(s: Sys, e: Step, id: TokenId) {
    e.Mark? && e.t in s.threads && s.threads[e.t].Marking? && s.threads[e.t].id == id
  }

  /** In every run that starts with no call in flight: a session is revoked for reuse only on
      behalf of one of its tokens, and only later than the grace after that token was superseded. */
  lemma ReuseOnlyAfterGrace(p: Policy, states: seq<Sys>, steps: seq<Step>, j: nat) returns (k: nat, m: nat)
    requires Run(p, states, steps) && j < |steps| && steps[j].RevokeReused? && steps[j].t !in states[0].threads
    requires steps[j].t in states[j].threads && states[j].threads[steps[j].t].ReuseFound?
    ensures m <= k < j && steps[k].Lookup? && steps[k].t == steps[j].t && steps[k].id in states[k].db.rows
    ensures var row := states[k].db.rows[steps[k].id];
            && states[j].threads[steps[j].t] == ReuseFound(row.user, row.session)
            && row.revoked && row.rotatedAt.Some? && states[j].now > row.rotatedAt.value + p.Normalized().reuseGrace
            && (|| (m == 0 && steps[k].id in states[0].db.rows && states[0].db.rows[steps[k].id].rotatedAt == row.rotatedAt)
                || (m < k && SupersededBy(states[m], steps[m], steps[k].id) && states[m].now == row.rotatedAt.value))
  {
    hide Next, Run;
    var t := steps[j].t;
    RunLength(p, states, steps);
    var i := DecidedReplay(p, states, steps, j, t);
    k := LookedUp(p, states, steps, i, t);
    m := SupersededWhen(p, states, steps, k, steps[k].id);
    ClockRuns(p, states, steps, i, j);
  }

  /** The table behind the repository interface. */
  class TokenStore {
    var db: Table

    constructor (db: Table)
      ensures this.db == db
    {
      this.db := db;
    }

    method CreateInLiveSession(now: int, u: UserId, x: SessionId, expires: int) returns (newId: Option<TokenId>)
      modifies this
      ensures var r := CreateInLive(old(db), now, u, x, expires);
              if r.None? then newId == None && db == old(db) else newId == Some(old(db).nextToken) && db == r.value
    {
      if !LiveFor(db, now, u, x) { return None; }
      newId := Some(db.nextToken);
      db := Insert(db, u, x, expires, now);
    }
  }

  class AuthService {
    const policy: Policy
    const store: TokenStore

    constructor (policy: Policy, store: TokenStore)
      ensures this.policy == policy && this.store == store
    {
      this.policy, this.store := policy, store;
    }

    method RefreshToken(id: TokenId, now: int, ttl: int) returns (o: Outcome)
      modifies store
      ensures (store.db, o) == RefreshAlone(policy, old(store.db), now, id, ttl)
    {
      if id !in store.db.rows { return ErrInvalidToken; }
      var stored := store.db.rows[id];
      if stored.expires < now { return ErrExpired; }
      var rotate := false;
      if stored.revoked {
        if stored.rotatedAt.None? { return ErrRevoked; }
        if !WithinGrace(policy, stored, now) {
          store.db := RevokeSession(store.db, stored.user, stored.session);
          return ErrReuseDetected;
        }
      } else {
        rotate := true;
      }
      var newId := store.CreateInLiveSession(now, stored.user, stored.session, now + ttl);
      if newId.None? { return ErrRevoked; }
      store.db := TouchSession(store.db, stored.session, now);
      if rotate {
        store.db := MarkRotated(store.db, id, now);
      }
      return Issued(newId.value);
    }
  }

  /** The steps thread `t` takes in a refresh. */
  function RefreshSteps(p: Policy, db: Table, now: int, id: TokenId, ttl: int, t: ThreadId): seq<Step>
    requires id in db.rows
  {
    var stored := db.rows[id];
    match Judge(p, stored, now)
    case IsExpired => [Lookup(t, id), Decide(t)]
    case IsRevoked => [Lookup(t, id), Decide(t)]
    case IsReused => [Lookup(t, id), Decide(t), RevokeReused(t)]
    case MayMint(rotate) =>
      if CreateInLive(db, now, stored.user, stored.session, now + ttl).None? then [Lookup(t, id), Decide(t), Mint(t, ttl)]
      else if rotate then [Lookup(t, id), Decide(t), Mint(t, ttl), Touch(t), Mark(t)]
      else [Lookup(t, id), Decide(t), Mint(t, ttl), Touch(t)]
  }

  lemma RunExtends(p: Policy, states: seq<Sys>, steps: seq<Step>, e: Step, s: Sys)
    requires Run(p, states, steps) && Next(p, states[|states| - 1], e, s)
    ensures Run(p, states + [s], steps + [e])
  {
    hide Next;
    var ss, es := states + [s], steps + [e];
    forall i | 0 <= i < |es| ensures Next(p, ss[i], es[i], ss[i + 1]) {
      if i < |steps| { assert ss[i] == states[i] && ss[i + 1] == states[i + 1] && es[i] == steps[i]; }
    }
  }

  /** The call run alone is one of the interleavings: the same steps, the same table. */
  lemma RefreshAloneIsARun(p: Policy, s: Sys, id: TokenId, ttl: int, t: ThreadId) returns (states: seq<Sys>)
    requires t !in s.threads && id in s.db.rows
    ensures Run(p, states, RefreshSteps(p, s.db, s.now, id, ttl, t))
    ensures states[0] == s && states[|states| - 1] == s.(db := RefreshAlone(p, s.db, s.now, id, ttl).0)
  {
    var stored := s.db.rows[id];
    var steps: seq<Step> := [];
    states := [s];
    var s1 := s.(threads := s.threads[t := Looked(id, stored)]);
    RunExtends(p, states, steps, Lookup(t, id), s1);
    states, steps := states + [s1], steps + [Lookup(t, id)];
    var v := Judge(p, stored, s.now);
    assert Without(s1.threads, t) == s.threads;
    if v.IsExpired? || v.IsRevoked? {
      RunExtends(p, states, steps, Decide(t), s);
      states := states + [s];
    } else if v.IsReused? {
      var s2 := s.(threads := s.threads[t := ReuseFound(stored.user, stored.session)]);
      assert s2.threads == s1.threads[t := ReuseFound(stored.user, stored.session)];
      RunExtends(p, states, steps, Decide(t), s2);
      states, steps := states + [s2], steps + [Decide(t)];
      var s3 := s.(db := RevokeSession(s.db, stored.user, stored.session));
      assert Without(s2.threads, t) == s.threads;
      RunExtends(p, states, steps, RevokeReused(t), s3);
      states := states + [s3];
    } else {
      states := MintAloneIsARun(p, s, id, ttl, t, v.rotate, states, steps);
    }
  }

  /** What a refresh that may mint comes to. */
  lemma MintingShape(p: Policy, db: Table, now: int, id: TokenId, ttl: int, t: ThreadId, rotate: bool)
    requires id in db.rows && Judge(p, db.rows[id], now) == MayMint(rotate)
    ensures var r := CreateInLive(db, now, db.rows[id].user, db.rows[id].session, now + ttl);
            RefreshSteps(p, db, now, id, ttl, t)
            == [Lookup(t, id), Decide(t), Mint(t, ttl)] + (if r.None? then [] else [Touch(t)] + (if rotate then [Mark(t)] else []))
    ensures var r := CreateInLive(db, now, db.rows[id].user, db.rows[id].session, now + ttl);
            r.None? ==> RefreshAlone(p, db, now, id, ttl).0 == db
    ensures var r := CreateInLive(db, now, db.rows[id].user, db.rows[id].session, now + ttl);
            r.Some? ==> var touched := TouchSession(r.value, db.rows[id].session, now);
                        RefreshAlone(p, db, now, id, ttl).0 == if rotate then MarkRotated(touched, id, now) else touched
  {
  }

  lemma DecideAndMint(p: Policy, s: Sys, id: TokenId, ttl: int, t: ThreadId, rotate: bool)
    requires t !in s.threads && id in s.db.rows && Judge(p, s.db.rows[id], s.now) == MayMint(rotate)
    ensures var stored := s.db.rows[id];
            var looked := s.(threads := s.threads[t := Looked(id, stored)]);
            var minting := s.(threads := s.threads[t := Minting(id, stored.user, stored.session, rotate)]);
            var r := CreateInLive(s.db, s.now, stored.user, stored.session, s.now + ttl);
            && Next(p, looked, Decide(t), minting)
            && (r.None? ==> Next(p, minting, Mint(t, ttl), s))
            && (r.Some? ==> Next(p, minting, Mint(t, ttl),
                                 Sys(r.value, s.now, s.threads[t := Touching(id, s.db.nextToken, stored.session, rotate)])))
  {
    hide Judge, CreateInLive;
    var stored := s.db.rows[id];
    var looked := s.(threads := s.threads[t := Looked(id, stored)]);
    var minting := s.(threads := s.threads[t := Minting(id, stored.user, stored.session, rotate)]);
    var touching := Touching(id, s.db.nextToken, stored.session, rotate);
    assert minting.threads == looked.threads[t := Minting(id, stored.user, stored.session, rotate)];
    assert Without(minting.threads, t) == s.threads;
    assert s.threads[t := touching] == minting.threads[t := touching];
  }

  lemma MintAloneIsARun(p: Policy, s: Sys, id: TokenId, ttl: int, t: ThreadId, rotate: bool, before: seq<Sys>, done: seq<Step>)
      returns (states: seq<Sys>)
    requires t !in s.threads && id in s.db.rows && Judge(p, s.db.rows[id], s.now) == MayMint(rotate)
    requires done == [Lookup(t, id)] && before == [s, s.(threads := s.threads[t := Looked(id, s.db.rows[id])])]
    requires Run(p, before, done)
    ensures Run(p, states, RefreshSteps(p, s.db, s.now, id, ttl, t))
    ensures states[0] == s && states[|states| - 1] == s.(db := RefreshAlone(p, s.db, s.now, id, ttl).0)
  {
    MintingShape(p, s.db, s.now, id, ttl, t, rotate);
    DecideAndMint(p, s, id, ttl, t, rotate);
    hide Next, Run, Judge, CreateInLive, TouchSession, MarkRotated, RefreshAlone, RefreshSteps;
    RunLength(p, before, done);
    var stored, steps := s.db.rows[id], done;
    var x := stored.session;
    var s2 := s.(threads := s.threads[t := Minting(id, stored.user, x, rotate)]);
    RunExtends(p, before, steps, Decide(t), s2);
    states, steps := before + [s2], steps + [Decide(t)];
    var r := CreateInLive(s.db, s.now, stored.user, x, s.now + ttl);
    var s3 := if r.None? then s else Sys(r.value, s.now, s.threads[t := Touching(id, s.db.nextToken, x, rotate)]);
    RunExtends(p, states, steps, Mint(t, ttl), s3);
    states, steps := states + [s3], steps + [Mint(t, ttl)];
    if r.Some? {
      states, steps := TouchAloneIsARun(p, Sys(r.value, s.now, s.threads), id, s.db.nextToken, x, rotate, t, states, steps);
    }
    assert steps == RefreshSteps(p, s.db, s.now, id, ttl, t);
  }

  lemma RunLength(p: Policy, states: seq<Sys>, steps: seq<Step>)
    requires Run(p, states, steps)
    ensures |states| == |steps| + 1
  {
  }

  /** The rest of a refresh once it has minted. */
  lemma TouchAloneIsARun(p: Policy, s: Sys, id: TokenId, newId: TokenId, x: SessionId, rotate: bool, t: ThreadId, before: seq<Sys>, done: seq<Step>)
      returns (states: seq<Sys>, steps: seq<Step>)
    requires t !in s.threads && Run(p, before, done)
    requires before[|before| - 1] == s.(threads := s.threads[t := Touching(id, newId, x, rotate)])
    ensures Run(p, states, steps) && states[0] == before[0]
    ensures steps == done + [Touch(t)] + if rotate then [Mark(t)] else []
    ensures var touched := TouchSession(s.db, x, s.now);
            states[|states| - 1] == s.(db := if rotate then MarkRotated(touched, id, s.now) else touched)
  {
    hide TouchSession, MarkRotated;
    var touched := TouchSession(s.db, x, s.now);
    var last := before[|before| - 1];
    assert Without(last.threads, t) == s.threads;
    states, steps := before, done;
    if rotate {
      var marking := Marking(id, newId);
      var s4 := Sys(touched, s.now, s.threads[t := marking]);
      assert s4.threads == last.threads[t := marking];
      RunExtends(p, states, steps, Touch(t), s4);
      states, steps := states + [s4], steps + [Touch(t)];
      var s5 := s.(db := MarkRotated(touched, id, s.now));
      assert Without(s4.threads, t) == s.threads;
      RunExtends(p, states, steps, Mark(t), s5);
      states, steps := states + [s5], steps + [Mark(t)];
    } else {
      var s4 := s.(db := touched);
      RunExtends(p, states, steps, Touch(t), s4);
      states, steps := states + [s4], steps + [Touch(t)];
    }
  }
}
