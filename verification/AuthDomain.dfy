/** Accounts, tokens, and the requests on them. A request is one transaction with one
    reading of the clock; concurrent requests are not part of this model. */
module AuthDomain {
  import opened Options
  import opened Text

  type Time = int // microseconds
  const SECOND: int := 1_000_000

  type Email = string
  type Secret = string
  type Raw = string // an opaque token; no two share a hash

  /** In seconds, but for the number of attempts. */
  datatype Settings = Settings(maxFailed: int, lockout: int, refreshTtl: int, resetTtl: int, verifyTtl: int)

  /** `password` is the one the stored hash verifies. */
  datatype Account = Account(password: Secret, active: bool, verified: bool, failed: nat, lockedUntil: Option<Time>)

  /** A row of any of the three token tables. `spent` is `revoked_at` or `used_at`. `root` is
      history: the token a sign-in issued, from which this one came by rotation. */
  datatype Token = Token(user: Email, expires: Time, spent: Option<Time>, root: Raw)

  datatype Tables = Tables(
    accounts: map<Email, Account>,
    refresh: map<Raw, Token>,
    resets: map<Raw, Token>,
    verifications: map<Raw, Token>
  )

  /** `minted` is the token the request would generate. `SetActive` is not in the service:
      something else decides whether an account is active. */
  datatype Request =
    | SignUp(email: string, password: Secret, minted: Raw)
    | SignIn(email: string, password: Secret, minted: Raw)
    | Refresh(presented: Raw, minted: Raw)
    | SignOut(presented: Raw)
    | RequestReset(email: string, minted: Raw)
    | ResetPassword(presented: Raw, password: Secret)
    | VerifyEmail(presented: Raw)
    | SetActive(email: string, active: bool)

  /** `Fault`: the minted token's hash was taken, so the commit raised and all was undone. */
  datatype Outcome =
    | SignedUp | SignedIn | Refreshed | ResetIssued | Done
    | NoAccount | AlreadyRegistered | InvalidCredentials | Locked(retryAfter: int) | Inactive | InvalidToken
    | Fault

  datatype Event = Event(at: Time, request: Request)

  function Normalize(email: string): Email {
    Lower(Strip(email))
  }

  predicate LockedAt(a: Account, now: Time) {
    a.lockedUntil.Some? && a.lockedUntil.value > now
  }

  /** Whole seconds, at least one. */
  function RetryAfter(a: Account, now: Time): int
    requires LockedAt(a, now)
  {
    var whole := (a.lockedUntil.value - now) / SECOND;
    if whole < 1 then 1 else whole
  }

  function AfterFailure(c: Settings, a: Account, now: Time): Account {
    if a.failed + 1 >= c.maxFailed
    then a.(failed := 0, lockedUntil := Some(now + c.lockout * SECOND))
    else a.(failed := a.failed + 1)
  }

  function AfterSuccess(a: Account): Account {
    a.(failed := 0, lockedUntil := None)
  }

  predicate Usable(tokens: map<Raw, Token>, raw: Raw, now: Time) {
    raw in tokens && tokens[raw].spent.None? && tokens[raw].expires > now
  }

  function Spend(tokens: map<Raw, Token>, raw: Raw, now: Time): map<Raw, Token>
    requires raw in tokens
  {
    tokens[raw := tokens[raw].(spent := Some(now))]
  }

  function RevokeAll(tokens: map<Raw, Token>, user: Email, now: Time): map<Raw, Token> {
    map r | r in tokens ::
      if tokens[r].user == user && tokens[r].spent.None? then tokens[r].(spent := Some(now)) else tokens[r]
  }

  function Rotate(tokens: map<Raw, Token>, raw: Raw, minted: Raw, expires: Time, now: Time): map<Raw, Token>
    requires raw in tokens
  {
    Spend(tokens, raw, now)[minted := Token(tokens[raw].user, expires, None, tokens[raw].root)]
  }

  // ---- the requests ---------------------------------------------------------------

  function HandleSignUp(c: Settings, s: Tables, now: Time, q: Request): (Tables, Outcome)
    requires q.SignUp?
  {
    var u := Normalize(q.email);
    if u in s.accounts then (s, AlreadyRegistered)
    else if q.minted in s.verifications then (s, Fault)
    else (s.(accounts := s.accounts[u := Account(q.password, true, false, 0, None)],
             verifications := s.verifications[q.minted := Token(u, now + c.verifyTtl * SECOND, None, q.minted)]),
          SignedUp)
  }

  function HandleSignIn(c: Settings, s: Tables, now: Time, q: Request): (Tables, Outcome)
    requires q.SignIn?
  {
    var u := Normalize(q.email);
    if u !in s.accounts then (s, InvalidCredentials)
    else
      var a := s.accounts[u];
      if LockedAt(a, now) then (s, Locked(RetryAfter(a, now)))
      else if !a.active then (s, Inactive)
      else if a.password != q.password
      then (s.(accounts := s.accounts[u := AfterFailure(c, a, now)]), InvalidCredentials)
      else if q.minted in s.refresh then (s, Fault)
      else (s.(accounts := s.accounts[u := AfterSuccess(a)],
               refresh := s.refresh[q.minted := Token(u, now + c.refreshTtl * SECOND, None, q.minted)]), SignedIn)
  }

  function HandleRefresh(c: Settings, s: Tables, now: Time, q: Request): (Tables, Outcome)
    requires q.Refresh?
  {
    if !Usable(s.refresh, q.presented, now) then (s, InvalidToken)
    else
      var u := s.refresh[q.presented].user;
      if u !in s.accounts || !s.accounts[u].active then (s, InvalidToken)
      else if q.minted in s.refresh then (s, Fault)
      else (s.(refresh := Rotate(s.refresh, q.presented, q.minted, now + c.refreshTtl * SECOND, now)), Refreshed)
  }

  function HandleRequestReset(c: Settings, s: Tables, now: Time, q: Request): (Tables, Outcome)
    requires q.RequestReset?
  {
    var u := Normalize(q.email);
    if u !in s.accounts || !s.accounts[u].active then (s, NoAccount)
    else if q.minted in s.resets then (s, Fault)
    else (s.(resets := s.resets[q.minted := Token(u, now + c.resetTtl * SECOND, None, q.minted)]), ResetIssued)
  }

  /** The lock and the counter are left as they were, and an inactive account may reset. */
  function HandleResetPassword(s: Tables, now: Time, q: Request): (Tables, Outcome)
    requires q.ResetPassword?
  {
    if !Usable(s.resets, q.presented, now) then (s, InvalidToken)
    else
      var u := s.resets[q.presented].user;
      if u !in s.accounts then (s, InvalidToken)
      else (s.(accounts := s.accounts[u := s.accounts[u].(password := q.password)],
               resets := Spend(s.resets, q.presented, now),
               refresh := RevokeAll(s.refresh, u, now)), Done)
  }

  function HandleVerifyEmail(s: Tables, now: Time, q: Request): (Tables, Outcome)
    requires q.VerifyEmail?
  {
    if !Usable(s.verifications, q.presented, now) then (s, InvalidToken)
    else
      var u := s.verifications[q.presented].user;
      if u !in s.accounts then (s, InvalidToken)
      else (s.(accounts := s.accounts[u := s.accounts[u].(verified := true)],
               verifications := Spend(s.verifications, q.presented, now)), Done)
  }

  function Handle(c: Settings, s: Tables, now: Time, q: Request): (Tables, Outcome) {
    match q
    case SignUp(_, _, _) => HandleSignUp(c, s, now, q)
    case SignIn(_, _, _) => HandleSignIn(c, s, now, q)
    case Refresh(_, _) => HandleRefresh(c, s, now, q)
    case SignOut(raw) =>
      if Usable(s.refresh, raw, now) then (s.(refresh := Spend(s.refresh, raw, now)), Done) else (s, Done)
    case RequestReset(_, _) => HandleRequestReset(c, s, now, q)
    case ResetPassword(_, _) => HandleResetPassword(s, now, q)
    case VerifyEmail(_) => HandleVerifyEmail(s, now, q)
    case SetActive(email, active) =>
      var u := Normalize(email);
      if u in s.accounts then (s.(accounts := s.accounts[u := s.accounts[u].(active := active)]), Done)
      else (s, NoAccount)
  }

  // ---- runs -----------------------------------------------------------------------

  /** The clock never goes back. */
  ghost predicate InOrder(run: seq<Event>) {
    forall i, j :: 0 <= i <= j < |run| ==> run[i].at <= run[j].at
  }

  /** After the first `k` requests of the run. */
  ghost function StateAt(c: Settings, s: Tables, run: seq<Event>, k: nat): Tables
    requires k <= |run|
  {
    if k == 0 then s else Handle(c, StateAt(c, s, run, k - 1), run[k - 1].at, run[k - 1].request).0
  }

  ghost function OutcomeAt(c: Settings, s: Tables, run: seq<Event>, k: nat): Outcome
    requires k < |run|
  {
    Handle(c, StateAt(c, s, run, k), run[k].at, run[k].request).1
  }

  /** The request checks a password against the account of `u` and it is wrong. */
  predicate FailsCheck(s: Tables, now: Time, q: Request, u: Email) {
    q.SignIn? && Normalize(q.email) == u && u in s.accounts
    && !LockedAt(s.accounts[u], now) && s.accounts[u].active && s.accounts[u].password != q.password
  }

  ghost predicate SignsIn(c: Settings, s: Tables, e: Event, u: Email) {
    e.request.SignIn? && Normalize(e.request.email) == u && Handle(c, s, e.at, e.request).1.SignedIn?
  }

  ghost predicate CompletesReset(c: Settings, s: Tables, e: Event, u: Email) {
    e.request.ResetPassword? && Handle(c, s, e.at, e.request).1.Done? && s.resets[e.request.presented].user == u
  }

  ghost function FailedAt(c: Settings, s: Tables, run: seq<Event>, u: Email, k: nat): nat
    requires k < |run|
  {
    if FailsCheck(StateAt(c, s, run, k), run[k].at, run[k].request, u) then 1 else 0
  }

  /** Failed password checks among the first `k` requests. */
  ghost function Failures(c: Settings, s: Tables, run: seq<Event>, u: Email, k: nat): nat
    requires k <= |run|
  {
    if k == 0 then 0
    else Failures(c, s, run, u, k - 1) + FailedAt(c, s, run, u, k - 1)
  }
}
