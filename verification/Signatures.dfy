// Instructor sign-off: signature requests, the lock they put on a flight, and what
// every sequence of service calls keeps.

module Signatures {

  import opened Common

  type UserId = nat
  type FlightId = nat
  type SigId = nat
  /** The signed fields of a flight, and the hash of them. */
  type Fields = string
  type Hash = string
  type Hasher = Fields -> Hash

  const MAX_IMAGE_BYTES := 512_000
  const MIN_EXPIRY_HOURS := 1
  const MAX_EXPIRY_HOURS := 720
  const DEFAULT_EXPIRY_HOURS := 168
  const HOUR := 3_600

  datatype Status = Pending | Completed | Revoked | Voided | Expired

  datatype Signature = Signature(flight: FlightId, status: Status, token: Option<string>, expiresAt: Option<int>,
                                 hash: Option<Hash>, signer: string, emails: nat)

  datatype Flight = Flight(user: UserId, fields: Fields, lock: Option<SigId>)

  datatype Store = Store(flights: map<FlightId, Flight>, sigs: map<SigId, Signature>, nextSig: SigId, now: int)

  datatype Error =
    | FlightNotFound | Unauthorized | FlightLocked | SignerNameRequired | ImageRequired | ImageTooLarge
    | PendingExists | EmailQuota | TokenTaken | SignatureNotFound | NotPending | NotCompleted | ReasonRequired
    | TokenInvalid | TokenExpired | FlightChanged | InvalidFlight

  datatype Outcome = Done(id: SigId) | Failed(error: Error)

  predicate Blank(s: string) { forall c | c in s :: c in " \t\n\r" }

  function ClampExpiryHours(requested: Option<int>): (h: int)
    ensures MIN_EXPIRY_HOURS <= h <= MAX_EXPIRY_HOURS
    ensures requested.None? ==> h == DEFAULT_EXPIRY_HOURS
    ensures requested.Some? ==> h == requested.value || h == MIN_EXPIRY_HOURS > requested.value || h == MAX_EXPIRY_HOURS < requested.value
  {
    if requested.None? then DEFAULT_EXPIRY_HOURS
    else if requested.value < MIN_EXPIRY_HOURS then MIN_EXPIRY_HOURS
    else if requested.value > MAX_EXPIRY_HOURS then MAX_EXPIRY_HOURS
    else requested.value
  }

  // --- Table writes -------------------------------------------------------------------

  function AddSig(s: Store, sig: Signature): Store { s.(sigs := s.sigs[s.nextSig := sig], nextSig := s.nextSig + 1) }

  function PutSig(s: Store, id: SigId, sig: Signature): Store { if id in s.sigs then s.(sigs := s.sigs[id := sig]) else s }

  function SetLock(s: Store, f: FlightId, lock: Option<SigId>): Store {
    if f in s.flights then s.(flights := s.flights[f := s.flights[f].(lock := lock)]) else s
  }

  /** Deleting flights takes their signatures along. */
  function DropFlights(s: Store, fs: set<FlightId>): Store {
    s.(flights := s.flights - fs, sigs := map id | id in s.sigs && s.sigs[id].flight !in fs :: s.sigs[id])
  }

  predicate PendingOf(s: Store, f: FlightId) { exists id | id in s.sigs :: s.sigs[id].flight == f && s.sigs[id].status.Pending? }

  predicate TokenUsed(s: Store, token: string) { exists id | id in s.sigs :: s.sigs[id].token == Some(token) }

  predicate PastDue(sig: Signature, now: int) { sig.expiresAt.Some? && sig.expiresAt.value < now }

  function ExpireAll(s: Store): Store {
    s.(sigs := map id | id in s.sigs ::
      if s.sigs[id].status.Pending? && PastDue(s.sigs[id], s.now) then s.sigs[id].(status := Expired) else s.sigs[id])
  }

  // --- The service calls ------------------------------------------------------------------

  function Owned(s: Store, f: FlightId, u: UserId): Option<Error> {
    if f !in s.flights then Some(FlightNotFound)
    else if s.flights[f].user != u then Some(Unauthorized)
    else None
  }

  function OwnedSig(s: Store, f: FlightId, u: UserId, id: SigId): Option<Error> {
    if Owned(s, f, u).Some? then Owned(s, f, u)
    else if id !in s.sigs || s.sigs[id].flight != f then Some(SignatureNotFound)
    else None
  }

  function OwnedPending(s: Store, f: FlightId, u: UserId, id: SigId): Option<Error> {
    if OwnedSig(s, f, u, id).Some? then OwnedSig(s, f, u, id)
    else if s.sigs[id].status != Pending then Some(NotPending)
    else None
  }

  function CheckSigner(name: string, image: string): Option<Error> {
    if Blank(name) then Some(SignerNameRequired)
    else if |image| == 0 then Some(ImageRequired)
    else if |image| > MAX_IMAGE_BYTES then Some(ImageTooLarge)
    else None
  }

  /** A call that makes two writes may be cut short after the first. */
  datatype Cut = Whole | CutShort

  function SignLiveIn(h: Hasher, s: Store, f: FlightId, u: UserId, name: string, image: string, cut: Cut): (Store, Outcome) {
    if Owned(s, f, u).Some? then (s, Failed(Owned(s, f, u).value))
    else if s.flights[f].lock.Some? then (s, Failed(FlightLocked))
    else if CheckSigner(name, image).Some? then (s, Failed(CheckSigner(name, image).value))
    else
      var s1 := AddSig(s, Signature(f, Completed, None, None, Some(h(s.flights[f].fields)), name, 0));
      (if cut.Whole? then SetLock(s1, f, Some(s.nextSig)) else s1, Done(s.nextSig))
  }

  function CreateRequestIn(s: Store, f: FlightId, u: UserId, email: bool, quotaLeft: bool, hours: Option<int>, token: string): (Store, Outcome) {
    if Owned(s, f, u).Some? then (s, Failed(Owned(s, f, u).value))
    else if s.flights[f].lock.Some? then (s, Failed(FlightLocked))
    else if PendingOf(s, f) then (s, Failed(PendingExists))
    else if email && !quotaLeft then (s, Failed(EmailQuota))
    else if TokenUsed(s, token) then (s, Failed(TokenTaken))
    else (AddSig(s, Signature(f, Pending, Some(token), Some(s.now + ClampExpiryHours(hours) * HOUR), None, "", 0)), Done(s.nextSig))
  }

  function ResendIn(s: Store, f: FlightId, u: UserId, id: SigId, email: bool, quotaLeft: bool, token: string): (Store, Outcome) {
    if OwnedPending(s, f, u, id).Some? then (s, Failed(OwnedPending(s, f, u, id).value))
    else if email && !quotaLeft then (s, Failed(EmailQuota))
    else if TokenUsed(s, token) then (s, Failed(TokenTaken))
    else (PutSig(s, id, s.sigs[id].(token := Some(token), expiresAt := Some(s.now + DEFAULT_EXPIRY_HOURS * HOUR))), Done(id))
  }

  function RevokeIn(s: Store, f: FlightId, u: UserId, id: SigId): (Store, Outcome) {
    if OwnedPending(s, f, u, id).Some? then (s, Failed(OwnedPending(s, f, u, id).value))
    else (PutSig(s, id, s.sigs[id].(status := Revoked)), Done(id))
  }

  function VoidIn(s: Store, f: FlightId, u: UserId, id: SigId, reason: string, cut: Cut): (Store, Outcome) {
    if Blank(reason) then (s, Failed(ReasonRequired))
    else if OwnedSig(s, f, u, id).Some? then (s, Failed(OwnedSig(s, f, u, id).value))
    else if s.sigs[id].status != Completed then (s, Failed(NotCompleted))
    else
      var s1 := PutSig(s, id, s.sigs[id].(status := Voided));
      (if cut.Whole? then SetLock(s1, f, None) else s1, Done(id))
  }

  /** The pending row behind a token; a lapsed one is marked expired on the way. */
  function LookupPending(s: Store, row: Option<SigId>, token: string): (Store, Outcome) {
    if Blank(token) || row.None? || row.value !in s.sigs then (s, Failed(TokenInvalid))
    else
      var sig := s.sigs[row.value];
      if sig.status.Expired? then (s, Failed(TokenExpired))
      else if !sig.status.Pending? then (s, Failed(TokenInvalid))
      else if PastDue(sig, s.now) then (PutSig(s, row.value, sig.(status := Expired)), Failed(TokenExpired))
      else (s, Done(row.value))
  }

  function CompleteIn(h: Hasher, s: Store, row: Option<SigId>, token: string, name: string, image: string,
                             expected: Option<Hash>, cut: Cut): (Store, Outcome) {
    var (s0, found) := LookupPending(s, row, token);
    if found.Failed? then (s0, found)
    else if CheckSigner(name, image).Some? then (s0, Failed(CheckSigner(name, image).value))
    else if found.id !in s0.sigs || s0.sigs[found.id].flight !in s0.flights then (s0, Failed(FlightNotFound))
    else
      var sig := s0.sigs[found.id];
      var hash := h(s0.flights[sig.flight].fields);
      if expected.Some? && expected.value != hash then (s0, Failed(FlightChanged))
      else
        var s1 := PutSig(s0, found.id, sig.(status := Completed, hash := Some(hash), signer := name));
        (if cut.Whole? then SetLock(s1, sig.flight, Some(found.id)) else s1, Done(found.id))
  }

  /** `accepted`: the new fields pass validation and the logbook rules. */
  function UpdateFlight(s: Store, f: FlightId, u: UserId, fields: Fields, accepted: bool): (Store, Outcome) {
    if Owned(s, f, u).Some? then (s, Failed(Owned(s, f, u).value))
    else if s.flights[f].lock.Some? then (s, Failed(FlightLocked))
    else if !accepted then (s, Failed(InvalidFlight))
    else (s.(flights := s.flights[f := s.flights[f].(fields := fields)]), Done(0))
  }

  function DeleteFlight(s: Store, f: FlightId, u: UserId): (Store, Outcome) {
    if Owned(s, f, u).Some? then (s, Failed(Owned(s, f, u).value))
    else if s.flights[f].lock.Some? then (s, Failed(FlightLocked))
    else (DropFlights(s, {f}), Done(0))
  }

  /** Deleting everything does not ask about locks. */
  function DeleteAllFlights(s: Store, u: UserId): Store {
    DropFlights(s, set f | f in s.flights && s.flights[f].user == u)
  }

  // --- Runs -----------------------------------------------------------------------------------

  datatype Step =
    | DoSignLive(f: FlightId, u: UserId, name: string, image: string, cut: Cut)
    | DoRequest(f: FlightId, u: UserId, email: bool, quotaLeft: bool, hours: Option<int>, token: string)
    | DoResend(f: FlightId, u: UserId, id: SigId, email: bool, quotaLeft: bool, token: string)
    | DoRevoke(f: FlightId, u: UserId, id: SigId)
    | DoVoid(f: FlightId, u: UserId, id: SigId, reason: string, cut: Cut)
    | DoResolve(row: Option<SigId>, token: string)
    | DoComplete(row: Option<SigId>, token: string, name: string, image: string, expected: Option<Hash>, cut: Cut)
    | DoSweep
    | DoMailSent(id: SigId, copy: Signature)
    | DoCreateFlight(f: FlightId, u: UserId, fields: Fields)
    | DoUpdate(f: FlightId, u: UserId, fields: Fields, accepted: bool)
    | DoDelete(f: FlightId, u: UserId)
    | DoDeleteAll(u: UserId)
    | DoTick(d: nat)

  /** MarkEmailSent writes back the whole row the caller holds. */
  function MailSent(s: Store, id: SigId, copy: Signature): Store {
    if id in s.sigs then PutSig(s, id, copy.(flight := s.sigs[id].flight, emails := copy.emails + 1)) else s
  }

  function Apply(h: Hasher, s: Store, e: Step): Store {
    match e
    case DoSignLive(f, u, name, image, cut) => SignLiveIn(h, s, f, u, name, image, cut).0
    case DoRequest(f, u, email, quotaLeft, hours, token) => CreateRequestIn(s, f, u, email, quotaLeft, hours, token).0
    case DoResend(f, u, id, email, quotaLeft, token) => ResendIn(s, f, u, id, email, quotaLeft, token).0
    case DoRevoke(f, u, id) => RevokeIn(s, f, u, id).0
    case DoVoid(f, u, id, reason, cut) => VoidIn(s, f, u, id, reason, cut).0
    case DoResolve(row, token) => LookupPending(s, row, token).0
    case DoComplete(row, token, name, image, expected, cut) => CompleteIn(h, s, row, token, name, image, expected, cut).0
    case DoSweep => ExpireAll(s)
    case DoMailSent(id, copy) => MailSent(s, id, copy)
    case DoCreateFlight(f, u, fields) => if f in s.flights then s else s.(flights := s.flights[f := Flight(u, fields, None)])
    case DoUpdate(f, u, fields, accepted) => UpdateFlight(s, f, u, fields, accepted).0
    case DoDelete(f, u) => DeleteFlight(s, f, u).0
    case DoDeleteAll(u) => DeleteAllFlights(s, u)
    case DoTick(d) => s.(now := s.now + d)
  }

  /** `row` is the row that carries the token, None when there is none. */
  predicate RowOf(s: Store, token: string, row: Option<SigId>) {
    && (row.Some? <==> TokenUsed(s, token))
    && (row.Some? ==> row.value in s.sigs && s.sigs[row.value].token == Some(token))
  }

  /** A step that presents a token acts on the row that carries it. */
  predicate Resolves(s: Store, e: Step) {
    match e
    case DoResolve(row, token) => RowOf(s, token, row)
    case DoComplete(row, token, _, _, _, _) => RowOf(s, token, row)
    case _ => true
  }

  ghost predicate Run(h: Hasher, states: seq<Store>, steps: seq<Step>) {
    && |states| == |steps| + 1
    && forall i | 0 <= i < |steps| :: Resolves(states[i], steps[i]) && states[i + 1] == Apply(h, states[i], steps[i])
  }

  // --- What a step can do ------------------------------------------------------------------------

  /** One lifecycle move, or none. */
  predicate Moves(a: Status, b: Status) {
    a == b || (a == Pending && b in {Completed, Revoked, Expired}) || (a == Completed && b == Voided)
  }

  /** Any number of moves. */
  predicate Reaches(a: Status, b: Status) { Moves(a, b) || (a == Pending && b == Voided) }

  /** What no step changes about a signature: its flight, once it is no longer pending its
      token, and once it is signed its hash and signer. */
  predicate Fixed(a: Signature, b: Signature) {
    && b.flight == a.flight && (!a.status.Pending? ==> b.token == a.token)
    && (a.status.Completed? || a.status.Voided? ==> b.hash == a.hash && b.signer == a.signer)
  }

  predicate Continues(a: Signature, b: Signature) { Moves(a.status, b.status) && Fixed(a, b) }

  /** The mail step writes back a row that nothing has changed since it was read. */
  predicate FreshCopy(s: Store, e: Step) {
    e.DoMailSent? && e.id in s.sigs ==> e.copy == s.sigs[e.id]
  }

  /** A void that stops between its two writes leaves the lock pointing at what it voided. */
  predicate VoidCutShort(s: Store, e: Step) {
    && e.DoVoid? && e.cut.CutShort? && VoidIn(s, e.f, e.u, e.id, e.reason, e.cut).1.Done?
    && s.flights[e.f].lock == Some(e.id)
  }

  /** The step is a completion that goes through. */
  predicate Succeeds(h: Hasher, s: Store, e: Step) {
    e.DoComplete? && CompleteIn(h, s, e.row, e.token, e.name, e.image, e.expected, e.cut).1.Done?
  }

  /** Flights are created, or edited while they are unlocked. */
  ghost predicate OnlyFlights(s: Store, s': Store) {
    && s'.sigs == s.sigs && s'.nextSig == s.nextSig
    && (forall f | f in s.flights ::
          f in s'.flights && (s'.flights[f] == s.flights[f] || (s.flights[f].lock.None? && s'.flights[f].lock.None?)))
    && (forall f | f in s'.flights && f !in s.flights :: s'.flights[f].lock.None?)
  }

  /** A row is added to an unlocked flight: a signature over its fields, which locks it unless
      the call is cut short, or a request with a new token where none is pending. */
  ghost predicate AddsRow(h: Hasher, s: Store, e: Step, s': Store) {
    var id := s.nextSig;
    && id in s'.sigs && s'.nextSig == id + 1 && s'.sigs == s.sigs[id := s'.sigs[id]]
    && (var sig := s'.sigs[id];
        && sig.flight in s.flights && s.flights[sig.flight].lock.None?
        && (|| (&& e.DoSignLive? && SignLiveIn(h, s, e.f, e.u, e.name, e.image, e.cut).1.Done?
                && sig.status.Completed? && sig.token.None? && sig.hash == Some(h(s.flights[sig.flight].fields))
                && s'.flights == if e.cut.Whole? then SetLock(s, sig.flight, Some(id)).flights else s.flights)
            || (&& e.DoRequest? && sig.status.Pending? && s'.flights == s.flights && !PendingOf(s, sig.flight)
                && sig.token.Some? && !TokenUsed(s, sig.token.value))))
  }

  /** A row moves on: short of signing and voiding, or it is signed over the flight's fields, or
      voided. The last two set the lock unless the call is cut short. */
  ghost predicate SetsRow(h: Hasher, s: Store, e: Step, s': Store, id: SigId) {
    && id in s.sigs && id in s'.sigs && s'.nextSig == s.nextSig && s'.sigs == s.sigs[id := s'.sigs[id]]
    && Continues(s.sigs[id], s'.sigs[id])
    && (var was, sig, f := s.sigs[id], s'.sigs[id], s.sigs[id].flight;
        && (sig.token == was.token || (e.DoResend? && e.id == id && sig.token.Some? && !TokenUsed(s, sig.token.value)))
        && (|| (s'.flights == s.flights && (sig.status == was.status || sig.status.Revoked? || sig.status.Expired?))
            || (&& Succeeds(h, s, e) && e.row == Some(id) && was.status.Pending? && sig.status.Completed? && f in s.flights
                && sig.hash == Some(h(s.flights[f].fields))
                && s'.flights == if e.cut.Whole? then SetLock(s, f, Some(id)).flights else s.flights)
            || (&& e.DoVoid? && e.id == id && e.f == f && VoidIn(s, e.f, e.u, e.id, e.reason, e.cut).1.Done?
                && was.status.Completed? && sig.status.Voided? && f in s.flights
                && s'.flights == if e.cut.Whole? then SetLock(s, f, None).flights else s.flights)))
  }

  ghost predicate Drops(s: Store, s': Store) { exists fs :: s' == DropFlights(s, fs) }

  /** All that a step can do. */
  ghost predicate Effect(h: Hasher, s: Store, e: Step, s': Store) {
    || OnlyFlights(s, s') || AddsRow(h, s, e, s') || (exists id :: SetsRow(h, s, e, s', id))
    || s' == ExpireAll(s) || Drops(s, s')
  }

  lemma EffectSignLive(h: Hasher, s: Store, e: Step)
    requires e.DoSignLive?
    ensures Effect(h, s, e, SignLiveIn(h, s, e.f, e.u, e.name, e.image, e.cut).0)
  {
    hide CheckSigner;
    var (s', o) := SignLiveIn(h, s, e.f, e.u, e.name, e.image, e.cut);
    if o.Done? {
      assert s'.sigs[s.nextSig].flight == e.f && e.f in s.flights;
      assert AddsRow(h, s, e, s');
    } else {
      assert OnlyFlights(s, s');
    }
  }

  lemma EffectRequest(h: Hasher, s: Store, e: Step)
    requires e.DoRequest?
    ensures Effect(h, s, e, CreateRequestIn(s, e.f, e.u, e.email, e.quotaLeft, e.hours, e.token).0)
  {
    hide ClampExpiryHours, PendingOf, TokenUsed;
    var (s', o) := CreateRequestIn(s, e.f, e.u, e.email, e.quotaLeft, e.hours, e.token);
    assert o.Done? ==> AddsRow(h, s, e, s');
    assert o.Failed? ==> OnlyFlights(s, s');
  }

  lemma EffectResend(h: Hasher, s: Store, e: Step)
    requires e.DoResend?
    ensures Effect(h, s, e, ResendIn(s, e.f, e.u, e.id, e.email, e.quotaLeft, e.token).0)
  {
    hide TokenUsed;
    var (s', o) := ResendIn(s, e.f, e.u, e.id, e.email, e.quotaLeft, e.token);
    assert o.Done? ==> SetsRow(h, s, e, s', e.id);
    assert o.Failed? ==> OnlyFlights(s, s');
  }

  lemma EffectRevoke(h: Hasher, s: Store, e: Step)
    requires e.DoRevoke?
    ensures Effect(h, s, e, RevokeIn(s, e.f, e.u, e.id).0)
  {
    var (s', o) := RevokeIn(s, e.f, e.u, e.id);
    assert o.Done? ==> SetsRow(h, s, e, s', e.id);
    assert o.Failed? ==> OnlyFlights(s, s');
  }

  lemma EffectVoid(h: Hasher, s: Store, e: Step)
    requires e.DoVoid?
    ensures Effect(h, s, e, VoidIn(s, e.f, e.u, e.id, e.reason, e.cut).0)
  {
    hide Blank;
    var (s', o) := VoidIn(s, e.f, e.u, e.id, e.reason, e.cut);
    assert o.Done? ==> SetsRow(h, s, e, s', e.id);
    assert o.Failed? ==> OnlyFlights(s, s');
  }

  lemma EffectLookup(h: Hasher, s: Store, e: Step, row: Option<SigId>, token: string)
    ensures var (s', o) := LookupPending(s, row, token);
            && Effect(h, s, e, s') && (o.Done? ==> s' == s && row == Some(o.id) && o.id in s.sigs && s.sigs[o.id].status.Pending?)
  {
    hide Blank, PastDue;
    var (s', o) := LookupPending(s, row, token);
    assert s' == s ==> OnlyFlights(s, s');
    assert s' != s ==> row.Some? && SetsRow(h, s, e, s', row.value);
  }

  lemma EffectComplete(h: Hasher, s: Store, e: Step)
    requires e.DoComplete?
    ensures Effect(h, s, e, CompleteIn(h, s, e.row, e.token, e.name, e.image, e.expected, e.cut).0)
  {
    EffectLookup(h, s, e, e.row, e.token);
    var (s', o) := CompleteIn(h, s, e.row, e.token, e.name, e.image, e.expected, e.cut);
    hide LookupPending, CheckSigner, Effect;
    if o.Done? {
      assert SetsRow(h, s, e, s', o.id);
      RowIsAnEffect(h, s, e, s', o.id);
    }
  }

  lemma RowIsAnEffect(h: Hasher, s: Store, e: Step, s': Store, id: SigId)
    requires SetsRow(h, s, e, s', id)
    ensures Effect(h, s, e, s')
  {
  }

  lemma EffectMail(h: Hasher, s: Store, e: Step)
    requires e.DoMailSent? && FreshCopy(s, e)
    ensures Effect(h, s, e, MailSent(s, e.id, e.copy))
  {
    var s' := MailSent(s, e.id, e.copy);
    if e.id in s.sigs { assert SetsRow(h, s, e, s', e.id); } else { assert OnlyFlights(s, s'); }
  }

  lemma EffectFlights(h: Hasher, s: Store, e: Step)
    requires e.DoCreateFlight? || e.DoUpdate? || e.DoDelete? || e.DoDeleteAll? || e.DoTick?
    ensures Effect(h, s, e, Apply(h, s, e))
  {
    hide Effect, SetsRow, AddsRow;
    var s' := Apply(h, s, e);
    if e.DoDelete? && DeleteFlight(s, e.f, e.u).1.Done? {
      assert s' == DropFlights(s, {e.f});
      DropIsAnEffect(h, s, e, s', {e.f});
    } else if e.DoDeleteAll? {
      DropIsAnEffect(h, s, e, s', set f | f in s.flights && s.flights[f].user == e.u);
    } else {
      assert OnlyFlights(s, s');
      FlightsAreAnEffect(h, s, e, s');
    }
  }

  lemma DropIsAnEffect(h: Hasher, s: Store, e: Step, s': Store, fs: set<FlightId>)
    requires s' == DropFlights(s, fs)
    ensures Effect(h, s, e, s')
  {
  }

  lemma FlightsAreAnEffect(h: Hasher, s: Store, e: Step, s': Store)
    requires OnlyFlights(s, s')
    ensures Effect(h, s, e, s')
  {
  }

  lemma StepEffect(h: Hasher, s: Store, e: Step)
    requires FreshCopy(s, e)
    ensures Effect(h, s, e, Apply(h, s, e))
  {
    if e.DoSweep? { assert Apply(h, s, e) == ExpireAll(s); }
    hide SignLiveIn, CreateRequestIn, ResendIn, RevokeIn, VoidIn, LookupPending, CompleteIn, MailSent, FreshCopy;
    match e
    case DoSignLive(_, _, _, _, _) => EffectSignLive(h, s, e);
    case DoRequest(_, _, _, _, _, _) => EffectRequest(h, s, e);
    case DoResend(_, _, _, _, _, _) => EffectResend(h, s, e);
    case DoRevoke(_, _, _) => EffectRevoke(h, s, e);
    case DoVoid(_, _, _, _, _) => EffectVoid(h, s, e);
    case DoResolve(row, token) => EffectLookup(h, s, e, row, token);
    case DoComplete(_, _, _, _, _, _) => EffectComplete(h, s, e);
    case DoMailSent(_, _) => EffectMail(h, s, e);
    case DoSweep =>
    case _ => EffectFlights(h, s, e);
  }

  // --- The lock ----------------------------------------------------------------------------------

  /** The flight's lock, if any, names a completed signature of that flight over its current fields. */
  predicate LockSound(h: Hasher, s: Store, f: FlightId)
    requires f in s.flights
  {
    match s.flights[f].lock
    case None => true
    case Some(id) =>
      id in s.sigs && s.sigs[id].flight == f && s.sigs[id].status == Completed && s.sigs[id].hash == Some(h(s.flights[f].fields))
  }

  ghost predicate Sound(h: Hasher, s: Store) {
    && (forall id | id in s.sigs :: id < s.nextSig && s.sigs[id].flight in s.flights)
    && (forall f | f in s.flights :: LockSound(h, s, f))
  }

  lemma FlightsKeepSound(h: Hasher, s: Store, s': Store)
    requires Sound(h, s) && OnlyFlights(s, s')
    ensures Sound(h, s') && Evolved(s, s')
  {
    forall f | f in s'.flights ensures LockSound(h, s', f) {
      if f in s.flights { assert LockSound(h, s, f); }
    }
  }

  lemma NewRowKeepsSound(h: Hasher, s: Store, e: Step, s': Store)
    requires Sound(h, s) && AddsRow(h, s, e, s')
    ensures Sound(h, s') && Evolved(s, s')
  {
    hide SignLiveIn, PendingOf, TokenUsed;
    forall f | f in s'.flights ensures LockSound(h, s', f) { assert LockSound(h, s, f); }
  }

  lemma SetRowEvolves(h: Hasher, s: Store, e: Step, s': Store, id: SigId)
    requires SetsRow(h, s, e, s', id)
    ensures Evolved(s, s')
  {
    hide CompleteIn, VoidIn, TokenUsed, SetLock, Moves, Fixed;
    forall x | x in s.sigs && x in s'.sigs && x != id ensures Continues(s.sigs[x], s'.sigs[x]) {
      UnchangedContinues(s.sigs[x]);
    }
  }

  lemma UnchangedContinues(a: Signature)
    ensures Continues(a, a)
  {
  }

  lemma SetRowKeepsLock(h: Hasher, s: Store, e: Step, s': Store, id: SigId, f: FlightId)
    requires SetsRow(h, s, e, s', id) && !VoidCutShort(s, e) && f in s'.flights && f in s.flights && LockSound(h, s, f)
    ensures LockSound(h, s', f)
  {
    hide CompleteIn, VoidIn, TokenUsed;
  }

  lemma SetRowKeepsSound(h: Hasher, s: Store, e: Step, s': Store, id: SigId)
    requires Sound(h, s) && SetsRow(h, s, e, s', id)
    ensures Evolved(s, s') && (!VoidCutShort(s, e) ==> Sound(h, s'))
  {
    SetRowEvolves(h, s, e, s', id);
    hide CompleteIn, VoidIn, TokenUsed, LockSound, Evolved, VoidCutShort;
    assert s'.flights.Keys == s.flights.Keys;
    if !VoidCutShort(s, e) {
      forall f | f in s'.flights ensures LockSound(h, s', f) { SetRowKeepsLock(h, s, e, s', id, f); }
    }
  }

  lemma ExpiryKeepsSound(h: Hasher, s: Store)
    requires Sound(h, s)
    ensures Sound(h, ExpireAll(s)) && Evolved(s, ExpireAll(s))
  {
    forall f | f in s.flights ensures LockSound(h, ExpireAll(s), f) { assert LockSound(h, s, f); }
  }

  lemma DropKeepsSound(h: Hasher, s: Store, fs: set<FlightId>)
    requires Sound(h, s)
    ensures Sound(h, DropFlights(s, fs)) && Evolved(s, DropFlights(s, fs))
  {
    forall f | f in DropFlights(s, fs).flights ensures LockSound(h, DropFlights(s, fs), f) { assert LockSound(h, s, f); }
  }

  /** Rows that stay move forward, and no id is used twice. */
  ghost predicate Evolved(s: Store, s': Store) {
    && s.nextSig <= s'.nextSig && (forall id | id in s'.sigs && id < s.nextSig :: id in s.sigs)
    && forall id | id in s.sigs && id in s'.sigs :: Continues(s.sigs[id], s'.sigs[id])
  }

  lemma StepEvolves(h: Hasher, s: Store, e: Step)
    requires Sound(h, s) && FreshCopy(s, e)
    ensures Evolved(s, Apply(h, s, e)) && (!VoidCutShort(s, e) ==> Sound(h, Apply(h, s, e)))
  {
    StepEffect(h, s, e);
    hide Apply, Sound, Evolved, VoidCutShort, OnlyFlights, AddsRow, SetsRow, ExpireAll, DropFlights;
    var s' := Apply(h, s, e);
    if OnlyFlights(s, s') {
      FlightsKeepSound(h, s, s');
    } else if AddsRow(h, s, e, s') {
      NewRowKeepsSound(h, s, e, s');
    } else if id :| SetsRow(h, s, e, s', id) {
      SetRowKeepsSound(h, s, e, s', id);
    } else if s' == ExpireAll(s) {
      ExpiryKeepsSound(h, s);
    } else {
      var fs :| s' == DropFlights(s, fs);
      DropKeepsSound(h, s, fs);
    }
  }

  /** With fresh mail copies, a step keeps every lock sound exactly when it is not such a void. */
  lemma StepKeepsSoundIff(h: Hasher, s: Store, e: Step)
    requires Sound(h, s) && FreshCopy(s, e)
    ensures Sound(h, Apply(h, s, e)) <==> !VoidCutShort(s, e)
  {
    StepEvolves(h, s, e);
    if VoidCutShort(s, e) { assert !LockSound(h, Apply(h, s, e), e.f); }
  }

  ghost predicate CarefulRun(h: Hasher, states: seq<Store>, steps: seq<Step>) {
    && Run(h, states, steps)
    && forall i | 0 <= i < |steps| :: FreshCopy(states[i], steps[i]) && !VoidCutShort(states[i], steps[i])
  }

  /** In every run a non-nil lock pointer names a completed signature of that flight,
      and the flight's current fields still hash to it. */
  lemma {:induction false} LocksStaySound(h: Hasher, states: seq<Store>, steps: seq<Step>, j: nat)
    requires CarefulRun(h, states, steps) && j < |states| && Sound(h, states[0])
    ensures Sound(h, states[j])
  {
    hide Apply, Sound, FreshCopy, VoidCutShort;
    if j > 0 {
      LocksStaySound(h, states, steps, j - 1);
      StepKeepsSoundIff(h, states[j - 1], steps[j - 1]);
    }
  }

  // --- Statuses -------------------------------------------------------------------------------------

  /** Over a whole run a status only moves forward, and what was signed stays as it was signed. */
  lemma {:induction false} StatusesMoveForward(h: Hasher, states: seq<Store>, steps: seq<Step>, i: nat, j: nat, id: SigId)
    requires CarefulRun(h, states, steps) && i <= j < |states| && Sound(h, states[0])
    requires id in states[i].sigs && id in states[j].sigs
    ensures Reaches(states[i].sigs[id].status, states[j].sigs[id].status) && Fixed(states[i].sigs[id], states[j].sigs[id])
    decreases j
  {
    hide Apply, Sound, FreshCopy, VoidCutShort;
    if i < j {
      LocksStaySound(h, states, steps, i);
      LocksStaySound(h, states, steps, j - 1);
      IdsStayBelow(h, states, steps, i, j - 1, id);
      StepEvolves(h, states[j - 1], steps[j - 1]);
      StatusesMoveForward(h, states, steps, i, j - 1, id);
    }
  }

  lemma {:induction false} IdsStayBelow(h: Hasher, states: seq<Store>, steps: seq<Step>, i: nat, j: nat, id: SigId)
    requires CarefulRun(h, states, steps) && i <= j < |states| && Sound(h, states[0]) && id in states[i].sigs
    ensures id < states[j].nextSig
    decreases j
  {
    hide Apply, FreshCopy, VoidCutShort;
    LocksStaySound(h, states, steps, i);
    if i < j {
      IdsStayBelow(h, states, steps, i, j - 1, id);
      LocksStaySound(h, states, steps, j - 1);
      StepEvolves(h, states[j - 1], steps[j - 1]);
    }
  }

  // --- One pending request --------------------------------------------------------------------------

  ghost predicate OnePending(s: Store) {
    forall x, y | x in s.sigs && y in s.sigs && s.sigs[x].status.Pending? && s.sigs[y].status.Pending?
                  && s.sigs[x].flight == s.sigs[y].flight :: x == y
  }

  /** A pending row was pending, or is a new request where none was; and a row's token is the
      one it had, or one nobody had. */
  ghost predicate Traced(s: Store, e: Step, s': Store, id: SigId)
    requires id in s'.sigs
  {
    var sig := s'.sigs[id];
    && (sig.status.Pending? ==>
          || (id in s.sigs && s.sigs[id].status.Pending? && s.sigs[id].flight == sig.flight)
          || (id == s.nextSig && e.DoRequest? && !PendingOf(s, sig.flight)))
    && (sig.token.Some? ==>
          || (id in s.sigs && sig.token == s.sigs[id].token)
          || (!TokenUsed(s, sig.token.value) && ((e.DoRequest? && id == s.nextSig) || (e.DoResend? && id == e.id))))
  }

  lemma NewRowTraced(h: Hasher, s: Store, e: Step, s': Store, id: SigId)
    requires AddsRow(h, s, e, s') && id in s'.sigs
    ensures Traced(s, e, s', id)
  {
    hide SignLiveIn, PendingOf, TokenUsed;
  }

  lemma SetRowTraced(h: Hasher, s: Store, e: Step, s': Store, row: SigId, id: SigId)
    requires SetsRow(h, s, e, s', row) && id in s'.sigs
    ensures Traced(s, e, s', id)
  {
    hide CompleteIn, VoidIn, PendingOf, TokenUsed;
  }

  lemma StepTraced(h: Hasher, s: Store, e: Step, id: SigId)
    requires FreshCopy(s, e) && id in Apply(h, s, e).sigs
    ensures Traced(s, e, Apply(h, s, e), id)
  {
    StepEffect(h, s, e);
    hide Apply, AddsRow, SetsRow, PendingOf, TokenUsed, PastDue;
    var s' := Apply(h, s, e);
    if AddsRow(h, s, e, s') {
      NewRowTraced(h, s, e, s', id);
    } else if row :| SetsRow(h, s, e, s', row) {
      SetRowTraced(h, s, e, s', row, id);
    }
  }

  lemma StepKeepsOnePending(h: Hasher, s: Store, e: Step)
    requires Sound(h, s) && FreshCopy(s, e) && OnePending(s)
    ensures OnePending(Apply(h, s, e))
  {
    hide Apply, Sound, FreshCopy;
    var s' := Apply(h, s, e);
    forall x, y | x in s'.sigs && y in s'.sigs && s'.sigs[x].status.Pending? && s'.sigs[y].status.Pending?
                  && s'.sigs[x].flight == s'.sigs[y].flight ensures x == y {
      StepTraced(h, s, e, x);
      StepTraced(h, s, e, y);
    }
  }

  /** A flight never has two pending requests. */
  lemma {:induction false} AlwaysOnePending(h: Hasher, states: seq<Store>, steps: seq<Step>, j: nat)
    requires CarefulRun(h, states, steps) && j < |states| && Sound(h, states[0]) && OnePending(states[0])
    ensures OnePending(states[j])
  {
    hide Apply, Sound, FreshCopy, VoidCutShort, OnePending;
    if j > 0 {
      AlwaysOnePending(h, states, steps, j - 1);
      LocksStaySound(h, states, steps, j - 1);
      StepKeepsOnePending(h, states[j - 1], steps[j - 1]);
    }
  }

  // --- Locked if and only if signed ------------------------------------------------------------------

  /** Every completed signature is the one its flight's lock names. */
  ghost predicate SignedIsLocked(s: Store) {
    forall id | id in s.sigs && s.sigs[id].status.Completed? && s.sigs[id].flight in s.flights ::
      s.flights[s.sigs[id].flight].lock == Some(id)
  }

  /** A completion on a flight that is already locked, or one cut short before it locks. */
  predicate BreaksLocking(h: Hasher, s: Store, e: Step) {
    || (e.DoSignLive? && e.cut.CutShort? && SignLiveIn(h, s, e.f, e.u, e.name, e.image, e.cut).1.Done?)
    || (e.DoComplete? && CompleteIn(h, s, e.row, e.token, e.name, e.image, e.expected, e.cut).1.Done?
        && (e.cut.CutShort? || s.flights[s.sigs[e.row.value].flight].lock.Some?))
  }

  /** "Locked exactly when signed" survives a step exactly when the step is no such completion. */
  lemma StepKeepsSignedIff(h: Hasher, s: Store, e: Step)
    requires Sound(h, s) && FreshCopy(s, e) && SignedIsLocked(s)
    ensures SignedIsLocked(Apply(h, s, e)) <==> !BreaksLocking(h, s, e)
  {
    var s' := Apply(h, s, e);
    if BreaksLocking(h, s, e) {
      if e.DoSignLive? {
        assert s'.sigs[s.nextSig].status.Completed?;
      } else {
        BadCompletion(h, s, e);
      }
    } else {
      GoodStepLocks(h, s, e);
    }
  }

  lemma BadCompletion(h: Hasher, s: Store, e: Step)
    requires Sound(h, s) && SignedIsLocked(s) && e.DoComplete? && BreaksLocking(h, s, e)
    ensures !SignedIsLocked(Apply(h, s, e))
  {
    var id, s' := e.row.value, Apply(h, s, e);
    var f := s.sigs[id].flight;
    assert s'.sigs[id].status.Completed? && s'.sigs[id].flight == f;
    if s.flights[f].lock.Some? {
      var other := s.flights[f].lock.value;
      assert LockSound(h, s, f);
      assert other != id && s'.sigs[other] == s.sigs[other];
    }
  }

  lemma GoodStepLocks(h: Hasher, s: Store, e: Step)
    requires Sound(h, s) && FreshCopy(s, e) && SignedIsLocked(s) && !BreaksLocking(h, s, e)
    ensures SignedIsLocked(Apply(h, s, e))
  {
    StepEffect(h, s, e);
    hide Apply, Sound, BreaksLocking, SignedIsLocked, OnlyFlights, AddsRow, SetsRow, ExpireAll, DropFlights;
    var s' := Apply(h, s, e);
    if OnlyFlights(s, s') {
      RowsHaveFlights(h, s);
      FlightsKeepSigned(s, s');
    } else if AddsRow(h, s, e, s') {
      NewRowKeepsSigned(h, s, e, s');
    } else if id :| SetsRow(h, s, e, s', id) {
      SetRowKeepsSigned(h, s, e, s', id);
    } else if s' == ExpireAll(s) {
      ExpiryKeepsSigned(s);
    } else {
      var fs :| s' == DropFlights(s, fs);
      DropKeepsSigned(s, fs);
    }
  }

  lemma RowsHaveFlights(h: Hasher, s: Store)
    requires Sound(h, s)
    ensures forall id | id in s.sigs :: s.sigs[id].flight in s.flights
  {
  }

  lemma FlightsKeepSigned(s: Store, s': Store)
    requires SignedIsLocked(s) && OnlyFlights(s, s') && forall id | id in s.sigs :: s.sigs[id].flight in s.flights
    ensures SignedIsLocked(s')
  {
    forall id | id in s'.sigs && s'.sigs[id].status.Completed? && s'.sigs[id].flight in s'.flights
      ensures s'.flights[s'.sigs[id].flight].lock == Some(id)
    {
      assert s.flights[s.sigs[id].flight].lock == Some(id);
    }
  }

  lemma NewRowKeepsSigned(h: Hasher, s: Store, e: Step, s': Store)
    requires Sound(h, s) && SignedIsLocked(s) && AddsRow(h, s, e, s') && !BreaksLocking(h, s, e)
    ensures SignedIsLocked(s')
  {
    hide SignLiveIn, CompleteIn, PendingOf, TokenUsed, LockSound;
    forall id | id in s'.sigs && s'.sigs[id].status.Completed? && s'.sigs[id].flight in s'.flights
      ensures s'.flights[s'.sigs[id].flight].lock == Some(id)
    {
      if id != s.nextSig { assert s.flights[s.sigs[id].flight].lock == Some(id); }
    }
  }

  lemma SetRowKeepsSigned(h: Hasher, s: Store, e: Step, s': Store, id: SigId)
    requires Sound(h, s) && SignedIsLocked(s) && SetsRow(h, s, e, s', id) && !BreaksLocking(h, s, e)
    ensures SignedIsLocked(s')
  {
    hide CompleteIn, VoidIn, SignLiveIn, TokenUsed, LockSound;
    forall x | x in s'.sigs && s'.sigs[x].status.Completed? && s'.sigs[x].flight in s'.flights
      ensures s'.flights[s'.sigs[x].flight].lock == Some(x)
    {
      if s.sigs[x].status.Completed? { assert s.flights[s.sigs[x].flight].lock == Some(x); }
    }
  }

  lemma ExpiryKeepsSigned(s: Store)
    requires SignedIsLocked(s)
    ensures SignedIsLocked(ExpireAll(s))
  {
    hide PastDue;
  }

  lemma DropKeepsSigned(s: Store, fs: set<FlightId>)
    requires SignedIsLocked(s)
    ensures SignedIsLocked(DropFlights(s, fs))
  {
  }

  /** A flight is locked exactly when it has a completed signature, in every run
      without such completions. */
  lemma {:induction false} LockedIffSigned(h: Hasher, states: seq<Store>, steps: seq<Step>, j: nat, f: FlightId)
    requires CarefulRun(h, states, steps) && j < |states| && Sound(h, states[0]) && SignedIsLocked(states[0])
    requires forall i | 0 <= i < |steps| :: !BreaksLocking(h, states[i], steps[i])
    requires f in states[j].flights
    ensures states[j].flights[f].lock.Some? <==> exists id :: id in states[j].sigs && states[j].sigs[id].flight == f && states[j].sigs[id].status.Completed?
  {
    hide Apply, FreshCopy, VoidCutShort, BreaksLocking;
    LocksStaySound(h, states, steps, j);
    SignedStaysLocked(h, states, steps, j);
    assert LockSound(h, states[j], f);
  }

  lemma {:induction false} SignedStaysLocked(h: Hasher, states: seq<Store>, steps: seq<Step>, j: nat)
    requires CarefulRun(h, states, steps) && j < |states| && Sound(h, states[0]) && SignedIsLocked(states[0])
    requires forall i | 0 <= i < |steps| :: !BreaksLocking(h, states[i], steps[i])
    ensures SignedIsLocked(states[j])
  {
    hide Apply, Sound, FreshCopy, VoidCutShort, BreaksLocking, SignedIsLocked;
    if j > 0 {
      SignedStaysLocked(h, states, steps, j - 1);
      LocksStaySound(h, states, steps, j - 1);
      StepKeepsSignedIff(h, states[j - 1], steps[j - 1]);
    }
  }

  /** A request of the owner's flight is pending and its link, with this token, is still good. */
  predicate AwaitsSigner(s: Store, f: FlightId, u: UserId, id: SigId, token: string) {
    OwnedPending(s, f, u, id).None? && !PastDue(s.sigs[id], s.now) && s.sigs[id].token == Some(token) && !Blank(token)
  }

  /** The flight is signed on the spot, and the link is used all the same. */
  lemma SignedTwice(h: Hasher, s: Store, f: FlightId, u: UserId, id: SigId, token: string, name: string, image: string)
    requires Sound(h, s) && AwaitsSigner(s, f, u, id, token) && s.flights[f].lock.None? && CheckSigner(name, image).None?
    ensures var s1 := SignLiveIn(h, s, f, u, name, image, Whole).0;
            var s2 := CompleteIn(h, s1, Some(id), token, name, image, None, Whole).0;
            && f in s2.flights && s2.flights[f] == s.flights[f].(lock := Some(id)) && Owned(s2, f, u).None? && id != s.nextSig
            && s.nextSig in s2.sigs && s2.sigs[s.nextSig].flight == f && s2.sigs[s.nextSig].status.Completed?
            && RowOf(s1, token, Some(id))
            && id in s2.sigs && s2.sigs[id] == s.sigs[id].(status := Completed, hash := Some(h(s.flights[f].fields)), signer := name)
  {
    hide Blank, PastDue, CheckSigner;
    var s1 := SignLiveIn(h, s, f, u, name, image, Whole).0;
    assert id in s1.sigs && s1.sigs[id] == s.sigs[id];
  }

  /** So "locked exactly when signed" fails in every state where a request is pending:
      sign the flight live, use the link, void the live signature, and the flight is open
      to edits that leave its other, completed signature behind. */
  lemma UnlockedThoughSigned(h: Hasher, s: Store, f: FlightId, u: UserId, id: SigId, token: string, name: string, image: string, fields: Fields)
      returns (states: seq<Store>, steps: seq<Step>)
    requires Sound(h, s) && AwaitsSigner(s, f, u, id, token) && s.flights[f].lock.None? && CheckSigner(name, image).None?
    requires h(fields) != h(s.flights[f].fields)
    ensures CarefulRun(h, states, steps) && states[0] == s
    ensures var last := states[|states| - 1];
            && f in last.flights && last.flights[f].lock.None?
            && id in last.sigs && last.sigs[id].flight == f && last.sigs[id].status.Completed?
            && last.sigs[id].hash != Some(h(last.flights[f].fields))
  {
    SignedTwice(h, s, f, u, id, token, name, image);
    NamedSigner(name, image);
    hide Blank, CheckSigner, LookupPending, CompleteIn, SignLiveIn, VoidIn, UpdateFlight, RowOf, Sound, AwaitsSigner;
    var s1 := SignLiveIn(h, s, f, u, name, image, Whole).0;
    var s2 := CompleteIn(h, s1, Some(id), token, name, image, None, Whole).0;
    var s3 := VoidIn(s2, f, u, s.nextSig, name, Whole).0;
    var s4 := UpdateFlight(s3, f, u, fields, true).0;
    VoidThenEdit(s2, f, u, s.nextSig, id, name, fields);
    var e1, e2 := DoSignLive(f, u, name, image, Whole), DoComplete(Some(id), token, name, image, None, Whole);
    var e3, e4 := DoVoid(f, u, s.nextSig, name, Whole), DoUpdate(f, u, fields, true);
    states, steps := [s, s1, s2, s3, s4], [e1, e2, e3, e4];
    assert s1 == Apply(h, s, e1) && s2 == Apply(h, s1, e2) && s3 == Apply(h, s2, e3) && s4 == Apply(h, s3, e4);
  }

  /** Voiding one of two signatures of a flight opens it to edits; the other stays as it is. */
  lemma VoidThenEdit(s: Store, f: FlightId, u: UserId, id: SigId, other: SigId, reason: string, fields: Fields)
    requires Owned(s, f, u).None? && id in s.sigs && s.sigs[id].flight == f && s.sigs[id].status.Completed?
    requires other in s.sigs && other != id && !Blank(reason)
    ensures var s' := UpdateFlight(VoidIn(s, f, u, id, reason, Whole).0, f, u, fields, true).0;
            && f in s'.flights && s'.flights[f].lock.None? && s'.flights[f].fields == fields
            && other in s'.sigs && s'.sigs[other] == s.sigs[other]
  {
    hide Blank;
  }

  lemma NamedSigner(name: string, image: string)
    requires CheckSigner(name, image).None?
    ensures !Blank(name)
  {
  }

  // --- Links ------------------------------------------------------------------------------------------

  /** No two rows share a token. */
  ghost predicate UniqueTokens(s: Store) {
    forall x, y | x in s.sigs && y in s.sigs && s.sigs[x].token.Some? && s.sigs[x].token == s.sigs[y].token :: x == y
  }

  lemma StepKeepsTokens(h: Hasher, s: Store, e: Step)
    requires Sound(h, s) && FreshCopy(s, e) && UniqueTokens(s)
    ensures UniqueTokens(Apply(h, s, e))
  {
    hide Apply, Sound, FreshCopy;
    var s' := Apply(h, s, e);
    forall x, y | x in s'.sigs && y in s'.sigs && s'.sigs[x].token.Some? && s'.sigs[x].token == s'.sigs[y].token ensures x == y {
      StepTraced(h, s, e, x);
      StepTraced(h, s, e, y);
    }
  }

  /** In every run a token leads to one request. */
  lemma {:induction false} TokensStayUnique(h: Hasher, states: seq<Store>, steps: seq<Step>, j: nat)
    requires CarefulRun(h, states, steps) && j < |states| && Sound(h, states[0]) && UniqueTokens(states[0])
    ensures UniqueTokens(states[j])
  {
    hide Apply, Sound, FreshCopy, VoidCutShort, UniqueTokens;
    if j > 0 {
      TokensStayUnique(h, states, steps, j - 1);
      LocksStaySound(h, states, steps, j - 1);
      StepKeepsTokens(h, states[j - 1], steps[j - 1]);
    }
  }

  /** Resending replaces the link: the new token leads to the request, the old one nowhere. */
  lemma ResendReplacesLink(s: Store, f: FlightId, u: UserId, id: SigId, email: bool, quotaLeft: bool, token: string)
    requires UniqueTokens(s) && ResendIn(s, f, u, id, email, quotaLeft, token).1.Done?
    ensures var s' := ResendIn(s, f, u, id, email, quotaLeft, token).0;
            && s'.sigs[id].token == Some(token) && !PastDue(s'.sigs[id], s'.now)
            && (s.sigs[id].token.Some? ==> !TokenUsed(s', s.sigs[id].token.value))
  {
  }

  /** The row a completion is made on was pending and in time, and is pending no more. */
  lemma CompletionNeedsPending(h: Hasher, s: Store, row: Option<SigId>, token: string, name: string, image: string, expected: Option<Hash>, cut: Cut)
    requires CompleteIn(h, s, row, token, name, image, expected, cut).1.Done?
    ensures row.Some? && row.value in s.sigs && s.sigs[row.value].status.Pending? && !PastDue(s.sigs[row.value], s.now)
    ensures var s' := CompleteIn(h, s, row, token, name, image, expected, cut).0;
            row.value in s'.sigs && s'.sigs[row.value].status.Completed? && s'.sigs[row.value].token == s.sigs[row.value].token
  {
    hide Blank, PastDue, CheckSigner;
  }

  /** A link works once: after a completion the same token completes nothing more, whatever
      happens in between, for as long as the request it belonged to is there; and the request
      itself is never completed again. */
  lemma LinkWorksOnce(h: Hasher, states: seq<Store>, steps: seq<Step>, i: nat, j: nat)
    requires CarefulRun(h, states, steps) && Sound(h, states[0]) && UniqueTokens(states[0])
    requires i < j < |steps| && Succeeds(h, states[i], steps[i]) && Succeeds(h, states[j], steps[j])
    ensures steps[i].token == steps[j].token ==> steps[i].row.value !in states[j].sigs
    ensures steps[i].row != steps[j].row
  {
    var a, b := steps[i], steps[j];
    CompletionNeedsPending(h, states[i], a.row, a.token, a.name, a.image, a.expected, a.cut);
    CompletionNeedsPending(h, states[j], b.row, b.token, b.name, b.image, b.expected, b.cut);
    TokensStayUnique(h, states, steps, j);
    assert Resolves(states[i], a) && Resolves(states[j], b) && states[i + 1] == Apply(h, states[i], a);
    hide Apply, Sound, CompleteIn, TokenUsed;
    if a.row.value in states[j].sigs {
      StatusesMoveForward(h, states, steps, i + 1, j, a.row.value);
    }
  }

  // --- Who may do what ----------------------------------------------------------------------------------

  predicate IsOwner(s: Store, f: FlightId, u: UserId) { f in s.flights && s.flights[f].user == u }

  /** The flight is the user's and open. */
  predicate MayChange(s: Store, f: FlightId, u: UserId) { IsOwner(s, f, u) && s.flights[f].lock.None? }

  /** The signature is one of the user's flight. */
  predicate HasSig(s: Store, f: FlightId, u: UserId, id: SigId) { IsOwner(s, f, u) && id in s.sigs && s.sigs[id].flight == f }

  predicate Written(text: string) { exists i | 0 <= i < |text| :: text[i] !in {' ', '\t', '\n', '\r'} }

  /** A name that is not blank and an image of 1 to 512,000 bytes. */
  predicate ProperSigner(name: string, image: string) { Written(name) && 1 <= |image| <= 512_000 }

  lemma BlankChar(c: char)
    ensures c in " \t\n\r" <==> c in {' ', '\t', '\n', '\r'}
  {
    assert " \t\n\r" == [' ', '\t', '\n', '\r'];
  }

  lemma BlankIff(text: string)
    ensures Blank(text) <==> !Written(text)
  {
    forall c: char ensures c in " \t\n\r" <==> c in {' ', '\t', '\n', '\r'} { BlankChar(c); }
    if Written(text) {
      var i :| 0 <= i < |text| && text[i] !in {' ', '\t', '\n', '\r'};
      assert text[i] in text;
    } else {
      forall c | c in text ensures c in " \t\n\r" {
        var i :| 0 <= i < |text| && text[i] == c;
      }
    }
  }

  /** When the owner's calls go through. */
  lemma OwnerCallsIff(h: Hasher, s: Store, f: FlightId, u: UserId, id: SigId, name: string, image: string, email: bool, quotaLeft: bool,
                      hours: Option<int>, token: string, reason: string, fields: Fields, accepted: bool, cut: Cut)
    ensures SignLiveIn(h, s, f, u, name, image, cut).1.Done? <==> MayChange(s, f, u) && ProperSigner(name, image)
    ensures CreateRequestIn(s, f, u, email, quotaLeft, hours, token).1.Done?
       <==> && MayChange(s, f, u) && (email ==> quotaLeft)
            && forall other | other in s.sigs ::
                 s.sigs[other].token != Some(token) && (s.sigs[other].flight == f ==> !s.sigs[other].status.Pending?)
    ensures ResendIn(s, f, u, id, email, quotaLeft, token).1.Done?
       <==> HasSig(s, f, u, id) && s.sigs[id].status.Pending? && (email ==> quotaLeft)
            && forall other | other in s.sigs :: s.sigs[other].token != Some(token)
    ensures RevokeIn(s, f, u, id).1.Done? <==> HasSig(s, f, u, id) && s.sigs[id].status.Pending?
    ensures VoidIn(s, f, u, id, reason, cut).1.Done? <==> Written(reason) && HasSig(s, f, u, id) && s.sigs[id].status.Completed?
    ensures UpdateFlight(s, f, u, fields, accepted).1.Done? <==> MayChange(s, f, u) && accepted
    ensures DeleteFlight(s, f, u).1.Done? <==> MayChange(s, f, u)
  {
    hide Blank, Written;
    BlankIff(name);
    BlankIff(reason);
  }

  /** When a token completes its request: it is written, its row pending and in time, the signer proper, and
      the flight there and still as the signer saw it. */
  lemma CompletionIff(h: Hasher, s: Store, row: Option<SigId>, token: string, name: string, image: string, expected: Option<Hash>, cut: Cut)
    ensures CompleteIn(h, s, row, token, name, image, expected, cut).1.Done?
       <==> && Written(token) && row.Some? && row.value in s.sigs
            && var sig := s.sigs[row.value];
               && sig.status.Pending? && (sig.expiresAt.Some? ==> s.now <= sig.expiresAt.value)
               && ProperSigner(name, image) && sig.flight in s.flights
               && (expected.Some? ==> expected.value == h(s.flights[sig.flight].fields))
  {
    hide Blank, Written;
    BlankIff(token);
    BlankIff(name);
  }

  /** A call that fails leaves the store as it was, but for marking the lapsed request behind a token as expired. */
  lemma FailuresChangeNothing(h: Hasher, s: Store, f: FlightId, u: UserId, id: SigId, row: Option<SigId>, name: string, image: string, email: bool,
                              quotaLeft: bool, hours: Option<int>, token: string, reason: string, expected: Option<Hash>, cut: Cut)
    ensures SignLiveIn(h, s, f, u, name, image, cut).1.Failed? ==> SignLiveIn(h, s, f, u, name, image, cut).0 == s
    ensures CreateRequestIn(s, f, u, email, quotaLeft, hours, token).1.Failed? ==> CreateRequestIn(s, f, u, email, quotaLeft, hours, token).0 == s
    ensures ResendIn(s, f, u, id, email, quotaLeft, token).1.Failed? ==> ResendIn(s, f, u, id, email, quotaLeft, token).0 == s
    ensures RevokeIn(s, f, u, id).1.Failed? ==> RevokeIn(s, f, u, id).0 == s
    ensures VoidIn(s, f, u, id, reason, cut).1.Failed? ==> VoidIn(s, f, u, id, reason, cut).0 == s
    ensures var (s', o) := CompleteIn(h, s, row, token, name, image, expected, cut);
            o.Failed? ==> s' == s || (row.Some? && row.value in s.sigs && s.sigs[row.value].status.Pending? && PastDue(s.sigs[row.value], s.now)
                                      && o.error == TokenExpired && s' == s.(sigs := s.sigs[row.value := s.sigs[row.value].(status := Expired)]))
  {
    hide Blank, Owned, CheckSigner, PendingOf, TokenUsed, SetLock;
  }

  /** How long a link works: a new request for the hours asked for, held between 1 and 720, or 168 when none
      are named; a resent one for 168. */
  lemma LinkLifetime(h: Hasher, s: Store, f: FlightId, u: UserId, id: SigId, email: bool, quotaLeft: bool, hours: Option<int>, token: string, d: nat)
    requires Written(token)
    ensures var (s', o) := CreateRequestIn(s, f, u, email, quotaLeft, hours, token);
            o.Done? ==> (LookupPending(Apply(h, s', DoTick(d)), Some(o.id), token).1 == Done(o.id) <==> d <= ClampExpiryHours(hours) * 3_600)
    ensures var (s', o) := ResendIn(s, f, u, id, email, quotaLeft, token);
            o.Done? ==> o.id == id && (LookupPending(Apply(h, s', DoTick(d)), Some(id), token).1 == Done(id) <==> d <= 168 * 3_600)
  {
    hide Blank, Written, PendingOf, TokenUsed, ClampExpiryHours;
    BlankIff(token);
  }

  /** The step is a call in the name of a user other than `v`, or the passing of time. */
  predicate ByOther(e: Step, v: UserId) {
    match e
    case DoSignLive(_, u, _, _, _) => u != v
    case DoRequest(_, u, _, _, _, _) => u != v
    case DoResend(_, u, _, _, _, _) => u != v
    case DoRevoke(_, u, _) => u != v
    case DoVoid(_, u, _, _, _) => u != v
    case DoUpdate(_, u, _, _) => u != v
    case DoDelete(_, u) => u != v
    case DoDeleteAll(u) => u != v
    case DoCreateFlight(_, u, _) => u != v
    case DoTick(_) => true
    case _ => false
  }

  predicate OwnsSig(s: Store, id: SigId, v: UserId) { id in s.sigs && IsOwner(s, s.sigs[id].flight, v) }

  /** All that is `v`'s is as it was: the flights and what was signed or asked for on them. */
  ghost predicate SameFor(s: Store, s': Store, v: UserId) {
    && (forall f :: IsOwner(s, f, v) <==> IsOwner(s', f, v))
    && (forall f | IsOwner(s, f, v) :: s'.flights[f] == s.flights[f])
    && (forall id | OwnsSig(s, id, v) :: id in s'.sigs && s'.sigs[id] == s.sigs[id])
    && (forall id | OwnsSig(s', id, v) :: OwnsSig(s, id, v))
  }

  lemma StrangerSigns(h: Hasher, s: Store, e: Step, v: UserId)
    requires ByOther(e, v) && (forall id | id in s.sigs :: id < s.nextSig)
    requires e.DoSignLive? || e.DoRequest? || e.DoResend?
    ensures SameFor(s, Apply(h, s, e), v)
  {
    hide Blank, CheckSigner, PendingOf, TokenUsed, ClampExpiryHours;
  }

  lemma StrangerEnds(h: Hasher, s: Store, e: Step, v: UserId)
    requires ByOther(e, v) && (e.DoRevoke? || e.DoVoid?)
    ensures SameFor(s, Apply(h, s, e), v)
  {
    hide Blank;
  }

  lemma StrangerStep(h: Hasher, s: Store, e: Step, v: UserId)
    requires ByOther(e, v) && forall id | id in s.sigs :: id < s.nextSig
    ensures SameFor(s, Apply(h, s, e), v)
  {
    hide SignLiveIn, CreateRequestIn, ResendIn, RevokeIn, VoidIn;
    if e.DoSignLive? || e.DoRequest? || e.DoResend? {
      StrangerSigns(h, s, e, v);
    } else if e.DoRevoke? || e.DoVoid? {
      StrangerEnds(h, s, e, v);
    }
  }

  lemma SameForTrans(a: Store, b: Store, c: Store, v: UserId)
    requires SameFor(a, b, v) && SameFor(b, c, v)
    ensures SameFor(a, c, v)
  {
    forall id | OwnsSig(a, id, v) ensures id in c.sigs && c.sigs[id] == a.sigs[id] {
      assert IsOwner(b, a.sigs[id].flight, v);
      assert OwnsSig(b, id, v);
    }
  }

  /** Nothing of a user's is changed by calls in other users' names, over any run of them. */
  lemma {:induction false} StrangersChangeNothing(h: Hasher, states: seq<Store>, steps: seq<Step>, i: nat, j: nat, v: UserId)
    requires CarefulRun(h, states, steps) && Sound(h, states[0]) && i <= j < |states|
    requires forall m | i <= m < j :: ByOther(steps[m], v)
    ensures SameFor(states[i], states[j], v)
    decreases j
  {
    hide Apply, SameFor, ByOther;
    if i < j {
      StrangersChangeNothing(h, states, steps, i, j - 1, v);
      LocksStaySound(h, states, steps, j - 1);
      StrangerStep(h, states[j - 1], steps[j - 1], v);
      SameForTrans(states[i], states[j - 1], states[j], v);
    } else {
      SameForSelf(states[i], v);
    }
  }

  lemma SameForSelf(s: Store, v: UserId)
    ensures SameFor(s, s, v)
  {
  }

  // --- Mail bookkeeping with a stale row ----------------------------------------------------------------

  /** What writing back a held row does to the locks: they stay sound exactly when the
      row is not the one that locks its flight, or still says completed with the same hash. */
  lemma MailKeepsSoundIff(h: Hasher, s: Store, id: SigId, copy: Signature)
    requires Sound(h, s) && id in s.sigs
    ensures var f := s.sigs[id].flight;
            Sound(h, MailSent(s, id, copy))
            <==> (s.flights[f].lock != Some(id) || (copy.status.Completed? && copy.hash == s.sigs[id].hash))
  {
    var s', f := MailSent(s, id, copy), s.sigs[id].flight;
    assert LockSound(h, s, f);
    if s.flights[f].lock == Some(id) {
      assert LockSound(h, s', f) <==> copy.status.Completed? && copy.hash == s.sigs[id].hash;
    }
    forall g | g in s'.flights && (g != f || s.flights[f].lock != Some(id)) ensures LockSound(h, s', g) {
      assert LockSound(h, s, g);
    }
  }

  /** Mail goes out for pending requests. The row written back then keeps the history, and the
      locks, exactly when the request is still pending. */
  lemma MailKeepsHistoryIff(h: Hasher, s: Store, id: SigId, copy: Signature)
    requires Sound(h, s) && id in s.sigs && copy.status.Pending?
    ensures Continues(s.sigs[id], MailSent(s, id, copy).sigs[id]) <==> s.sigs[id].status.Pending?
    ensures s.sigs[id].status.Pending? ==> Sound(h, MailSent(s, id, copy))
  {
    MailKeepsSoundIff(h, s, id, copy);
    assert LockSound(h, s, s.sigs[id].flight);
  }

  /** And it leaves the link as it is exactly when the request was not resent meanwhile either:
      status, token and expiry all stay exactly when they are what the copy says. */
  lemma MailKeepsLinkIff(h: Hasher, s: Store, id: SigId, copy: Signature)
    requires Sound(h, s) && id in s.sigs && copy.status.Pending?
    ensures var now := s.sigs[id];
            var after := MailSent(s, id, copy).sigs[id];
            (after.status, after.token, after.expiresAt) == (now.status, now.token, now.expiresAt)
            <==> now.status.Pending? && copy.token == now.token && copy.expiresAt == now.expiresAt
  {
  }

  /** A request resent while its first mail was being sent goes back to the old link: the new
      token, the one in the second mail, leads nowhere, and the old one works again. */
  lemma StaleMailRevertsLink(s: Store, f: FlightId, u: UserId, id: SigId, was: string, email: bool, quotaLeft: bool, token: string)
    requires UniqueTokens(s) && AwaitsSigner(s, f, u, id, was) && ResendIn(s, f, u, id, email, quotaLeft, token).1.Done?
    ensures var resent := ResendIn(s, f, u, id, email, quotaLeft, token).0;
            var after := MailSent(resent, id, s.sigs[id]);
            && resent.sigs[id].token == Some(token) && !TokenUsed(resent, was)
            && !TokenUsed(after, token) && RowOf(after, was, Some(id)) && LookupPending(after, Some(id), was).1 == Done(id)
  {
    ResendReplacesLink(s, f, u, id, email, quotaLeft, token);
    var after := MailSent(ResendIn(s, f, u, id, email, quotaLeft, token).0, id, s.sigs[id]);
    assert id in after.sigs && after.sigs[id].token == Some(was);
  }

  /** A request revoked while its mail was being sent is pending again afterwards, and one
      completed meanwhile leaves its flight locked by a pending request. */
  lemma StaleMailReopens(h: Hasher, s: Store, f: FlightId, u: UserId, id: SigId, token: string, name: string, image: string)
    requires Sound(h, s) && AwaitsSigner(s, f, u, id, token) && CheckSigner(name, image).None?
    ensures MailSent(RevokeIn(s, f, u, id).0, id, s.sigs[id]).sigs[id].status.Pending?
    ensures var s' := MailSent(CompleteIn(h, s, Some(id), token, name, image, None, Whole).0, id, s.sigs[id]);
            s'.flights[f].lock == Some(id) && s'.sigs[id].status.Pending?
  {
  }

  // --- The services ------------------------------------------------------------------------------------------

  class SignatureService {
    const h: Hasher
    var store: Store

    constructor (h: Hasher, store: Store)
      ensures this.h == h && this.store == store
    {
      this.h, this.store := h, store;
    }

    /** The row that carries the token. */
    method GetByTokenHash(token: string) returns (row: Option<SigId>)
      ensures row.Some? <==> TokenUsed(store, token)
      ensures row.Some? ==> row.value in store.sigs && store.sigs[row.value].token == Some(token)
    {
      var todo := store.sigs.Keys;
      while todo != {}
        invariant todo <= store.sigs.Keys
        invariant forall id | id in store.sigs && id !in todo :: store.sigs[id].token != Some(token)
      {
        var id :| id in todo;
        if store.sigs[id].token == Some(token) { return Some(id); }
        todo := todo - {id};
      }
      return None;
    }

    method SignLive(f: FlightId, u: UserId, name: string, image: string) returns (o: Outcome)
      modifies this
      ensures (store, o) == SignLiveIn(h, old(store), f, u, name, image, Whole)
    {
      if f !in store.flights { return Failed(FlightNotFound); }
      var flight := store.flights[f];
      if flight.user != u { return Failed(Unauthorized); }
      if flight.lock.Some? { return Failed(FlightLocked); }
      var bad := CheckSigner(name, image);
      if bad.Some? { return Failed(bad.value); }
      var id := store.nextSig;
      store := AddSig(store, Signature(f, Completed, None, None, Some(h(flight.fields)), name, 0));
      store := SetLock(store, f, Some(id));
      return Done(id);
    }

    method CreateRequest(f: FlightId, u: UserId, email: bool, quotaLeft: bool, hours: Option<int>, token: string) returns (o: Outcome)
      modifies this
      ensures (store, o) == CreateRequestIn(old(store), f, u, email, quotaLeft, hours, token)
    {
      var bad := Owned(store, f, u);
      if bad.Some? { return Failed(bad.value); }
      if store.flights[f].lock.Some? { return Failed(FlightLocked); }
      if PendingOf(store, f) { return Failed(PendingExists); }
      if email && !quotaLeft { return Failed(EmailQuota); }
      if TokenUsed(store, token) { return Failed(TokenTaken); }
      var id, due := store.nextSig, store.now + ClampExpiryHours(hours) * HOUR;
      store := AddSig(store, Signature(f, Pending, Some(token), Some(due), None, "", 0));
      return Done(id);
    }

    method Resend(f: FlightId, u: UserId, id: SigId, email: bool, quotaLeft: bool, token: string) returns (o: Outcome)
      modifies this
      ensures (store, o) == ResendIn(old(store), f, u, id, email, quotaLeft, token)
    {
      var bad := OwnedPending(store, f, u, id);
      if bad.Some? { return Failed(bad.value); }
      if email && !quotaLeft { return Failed(EmailQuota); }
      if TokenUsed(store, token) { return Failed(TokenTaken); }
      var sig := store.sigs[id];
      sig := sig.(token := Some(token));
      sig := sig.(expiresAt := Some(store.now + DEFAULT_EXPIRY_HOURS * HOUR));
      store := PutSig(store, id, sig);
      return Done(id);
    }

    method Revoke(f: FlightId, u: UserId, id: SigId) returns (o: Outcome)
      modifies this
      ensures (store, o) == RevokeIn(old(store), f, u, id)
    {
      var bad := OwnedPending(store, f, u, id);
      if bad.Some? { return Failed(bad.value); }
      store := PutSig(store, id, store.sigs[id].(status := Revoked));
      return Done(id);
    }

    method Void(f: FlightId, u: UserId, id: SigId, reason: string) returns (o: Outcome)
      modifies this
      ensures (store, o) == VoidIn(old(store), f, u, id, reason, Whole)
    {
      if Blank(reason) { return Failed(ReasonRequired); }
      var bad := OwnedSig(store, f, u, id);
      if bad.Some? { return Failed(bad.value); }
      if store.sigs[id].status != Completed { return Failed(NotCompleted); }
      store := PutSig(store, id, store.sigs[id].(status := Voided));
      store := SetLock(store, f, None);
      return Done(id);
    }

    method LookupPendingByToken(token: string) returns (o: Outcome, ghost row: Option<SigId>)
      modifies this
      ensures row.Some? <==> !Blank(token) && TokenUsed(old(store), token)
      ensures row.Some? ==> row.value in old(store).sigs && old(store).sigs[row.value].token == Some(token)
      ensures (store, o) == LookupPending(old(store), row, token)
    {
      if Blank(token) { return Failed(TokenInvalid), None; }
      var found := GetByTokenHash(token);
      if found.None? { return Failed(TokenInvalid), None; }
      var sig := store.sigs[found.value];
      if sig.status != Pending {
        if sig.status == Expired { return Failed(TokenExpired), found; }
        return Failed(TokenInvalid), found;
      }
      if PastDue(sig, store.now) {
        store := PutSig(store, found.value, sig.(status := Expired));
        return Failed(TokenExpired), found;
      }
      return Done(found.value), found;
    }

    method CompleteFromToken(token: string, name: string, image: string, expected: Option<Hash>) returns (o: Outcome, ghost row: Option<SigId>)
      requires forall id | id in store.sigs :: store.sigs[id].flight in store.flights
      modifies this
      ensures row.Some? <==> !Blank(token) && TokenUsed(old(store), token)
      ensures row.Some? ==> row.value in old(store).sigs && old(store).sigs[row.value].token == Some(token)
      ensures (store, o) == CompleteIn(h, old(store), row, token, name, image, expected, Whole)
    {
      o, row := LookupPendingByToken(token);
      if o.Failed? { return; }
      var id, bad := o.id, CheckSigner(name, image);
      if bad.Some? { return Failed(bad.value), row; }
      var sig := store.sigs[id];
      sig := sig.(status := Completed, signer := name);
      var hash := h(store.flights[sig.flight].fields);
      sig := sig.(hash := Some(hash));
      if expected.Some? && expected.value != hash { return Failed(FlightChanged), row; }
      store := PutSig(store, id, sig);
      store := SetLock(store, sig.flight, Some(id));
      return Done(id), row;
    }
  }
}
