/** What the failed-attempt lockout guarantees over whole runs. */
module LoginLockout {
  import opened Options
  import opened AuthDomain

  /** At least one attempt and at least one second, as the defaults 5 and 900 are. */
  predicate Sensible(c: Settings) {
    c.maxFailed >= 1 && c.lockout >= 1
  }

  function Lockout(c: Settings): (d: int)
    requires Sensible(c)
    ensures d >= SECOND
  {
    c.lockout * SECOND
  }

  ghost predicate NeverSignsIn(c: Settings, s: Tables, run: seq<Event>, u: Email) {
    forall k: nat :: k < |run| ==> !SignsIn(c, StateAt(c, s, run, k), run[k], u)
  }

  // ---- the bound ------------------------------------------------------------------

  /** Attempts that fit in a stretch of time, one batch at each lockout boundary. */
  function Budget(c: Settings, length: int): int
    requires Sensible(c) && length >= 0
  {
    c.maxFailed * (length / Lockout(c) + 1)
  }

  lemma BudgetGrows(c: Settings, a: int, b: int)
    requires Sensible(c) && 0 <= a <= b
    ensures c.maxFailed <= Budget(c, a) <= Budget(c, b)
  {
    DivisionGrows(a, b, Lockout(c));
    ProductGrows(c.maxFailed, a / Lockout(c) + 1, b / Lockout(c) + 1);
    ProductGrows(c.maxFailed, 1, a / Lockout(c) + 1);
  }

  lemma DivisionGrows(a: int, b: int, d: int)
    requires 0 <= a <= b && d > 0
    ensures 0 <= a / d <= b / d
  {
    if a / d > b / d { ProductGrows(d, b / d + 1, a / d); }
  }

  lemma ProductGrows(m: int, a: int, b: int)
    requires m >= 0 && a <= b
    ensures m * a <= m * b
  {
  }

  lemma BudgetOfAWindow(c: Settings, length: int)
    requires Sensible(c) && length >= Lockout(c)
    ensures Budget(c, length) == Budget(c, length - Lockout(c)) + c.maxFailed
  {
    var d := Lockout(c);
    assert length / d == (length - d) / d + 1 by { OneMore(length - d, d); }
    assert c.maxFailed * (length / d + 1) == c.maxFailed * ((length - d) / d + 1) + c.maxFailed;
  }

  lemma OneMore(a: int, d: int)
    requires a >= 0 && d > 0
    ensures (a + d) / d == a / d + 1
  {
    var q := a / d;
    assert a == q * d + a % d;
    assert a + d == (q + 1) * d + a % d by { assert (q + 1) * d == q * d + d; }
    Quotient(a + d, d, q + 1, a % d);
  }

  lemma Quotient(n: int, d: int, q: int, r: int)
    requires d > 0 && n == q * d + r && 0 <= r < d
    ensures n / d == q && n % d == r
  {
    var p := n / d;
    if p < q { ProductGrows(d, p + 1, q); } else if p > q { ProductGrows(d, q + 1, p); }
  }

  /** Checks of `u`'s password that can still fail from `now` up to and including `end`. */
  function Remaining(c: Settings, s: Tables, u: Email, now: Time, end: Time): int
    requires Sensible(c) && now <= end
  {
    if u !in s.accounts then Budget(c, end - now)
    else
      var a := s.accounts[u];
      if !LockedAt(a, now) then Budget(c, end - now) - (if a.failed < c.maxFailed then a.failed else c.maxFailed - 1)
      else if a.lockedUntil.value > end then 0
      else Budget(c, end - a.lockedUntil.value)
  }

  lemma RemainingFalls(c: Settings, s: Tables, u: Email, now: Time, later: Time, end: Time)
    requires Sensible(c) && now <= later <= end
    ensures 0 <= Remaining(c, s, u, later, end) <= Remaining(c, s, u, now, end)
  {
    hide Budget;
    BudgetGrows(c, end - later, end - now);
    if u in s.accounts && s.accounts[u].lockedUntil.Some? {
      var until := s.accounts[u].lockedUntil.value;
      if now <= until <= end { BudgetGrows(c, end - until, end - now); }
      if later <= until <= end { BudgetGrows(c, end - until, end - later); }
      if now <= until <= later { BudgetGrows(c, end - later, end - until); }
    }
  }

  /** What a request does to the counter and the lock of `u`. */
  lemma CounterAfter(c: Settings, s: Tables, e: Event, u: Email)
    ensures var after := Handle(c, s, e.at, e.request).0;
            && (u in s.accounts ==> u in after.accounts)
            && (u in after.accounts ==>
                  var a := after.accounts[u];
                  if FailsCheck(s, e.at, e.request, u) then
                    a == AfterFailure(c, s.accounts[u], e.at)
                  else if SignsIn(c, s, e, u) then
                    u in s.accounts && !LockedAt(s.accounts[u], e.at) && a.failed == 0 && a.lockedUntil == None
                  else if u in s.accounts then
                    a.failed == s.accounts[u].failed && a.lockedUntil == s.accounts[u].lockedUntil
                  else a.failed == 0 && a.lockedUntil == None)
  {
    hide RevokeAll, Rotate, Spend, Normalize, RetryAfter;
    match e.request
    case SignUp(_, _, _) =>
    case SignIn(_, _, _) =>
    case Refresh(_, _) =>
    case SignOut(_) =>
    case RequestReset(_, _) =>
    case ResetPassword(_, _) =>
    case VerifyEmail(_) =>
    case SetActive(_, _) =>
  }

  /** A failed check uses up one of those that remain. */
  lemma FailurePays(c: Settings, s: Tables, e: Event, u: Email, end: Time)
    requires Sensible(c) && e.at <= end && !SignsIn(c, s, e, u)
    ensures Remaining(c, Handle(c, s, e.at, e.request).0, u, e.at, end)
            + (if FailsCheck(s, e.at, e.request, u) then 1 else 0) <= Remaining(c, s, u, e.at, end)
  {
    hide Budget, Handle;
    CounterAfter(c, s, e, u);
    BudgetGrows(c, 0, end - e.at);
    if FailsCheck(s, e.at, e.request, u) && s.accounts[u].failed + 1 >= c.maxFailed {
      assert e.at + Lockout(c) > e.at;
      if e.at + Lockout(c) <= end { BudgetOfAWindow(c, end - e.at); }
    }
  }

  lemma {:induction false} FailuresArePaid(c: Settings, s: Tables, run: seq<Event>, u: Email, start: Time,
                                           end: Time, k: nat)
    requires Sensible(c) && InOrder(run) && NeverSignsIn(c, s, run, u)
    requires start <= end && forall i :: 0 <= i < |run| ==> start <= run[i].at <= end
    requires k <= |run|
    ensures var now := if k == 0 then start else run[k - 1].at;
            var left := Remaining(c, StateAt(c, s, run, k), u, now, end);
            Failures(c, s, run, u, k) + left <= Remaining(c, s, u, start, end)
  {
    hide Remaining, Handle;
    if k > 0 {
      FailuresArePaid(c, s, run, u, start, end, k - 1);
      var before := StateAt(c, s, run, k - 1);
      var now := if k == 1 then start else run[k - 2].at;
      assert now <= run[k - 1].at;
      RemainingFalls(c, before, u, now, run[k - 1].at, end);
      FailurePays(c, before, run[k - 1], u, end);
    }
  }

  lemma WithinBudget(c: Settings, s: Tables, u: Email, start: Time, end: Time)
    requires Sensible(c) && start <= end
    ensures Remaining(c, s, u, start, end) <= Budget(c, end - start)
  {
    hide Budget;
    BudgetGrows(c, 0, end - start);
    if u in s.accounts && LockedAt(s.accounts[u], start) && s.accounts[u].lockedUntil.value <= end {
      BudgetGrows(c, end - s.accounts[u].lockedUntil.value, end - start);
    }
  }

  /** Over any stretch of `length` in which `u` does not sign in, however the requests fall
      and whatever state it begins in, at most M * (length / L + 1) password checks fail. */
  lemma LockoutBound(c: Settings, s: Tables, run: seq<Event>, u: Email, start: Time, length: int)
    requires Sensible(c) && InOrder(run) && NeverSignsIn(c, s, run, u)
    requires length >= 0 && forall i :: 0 <= i < |run| ==> start <= run[i].at <= start + length
    ensures Failures(c, s, run, u, |run|) <= c.maxFailed * (length / (c.lockout * SECOND) + 1)
  {
    hide Remaining, Failures, StateAt;
    var end := start + length;
    FailuresArePaid(c, s, run, u, start, end, |run|);
    var last := if |run| == 0 then start else run[|run| - 1].at;
    RemainingFalls(c, StateAt(c, s, run, |run|), u, last, end, end);
    WithinBudget(c, s, u, start, end);
    assert Budget(c, end - start) == c.maxFailed * (length / (c.lockout * SECOND) + 1);
  }

  // ---- the bound is met -----------------------------------------------------------

  /** M wrong passwords the moment each lock ends. */
  function Hammering(c: Settings, u: Email, wrong: Secret, windows: nat): seq<Event>
    requires Sensible(c)
  {
    seq(c.maxFailed * (windows + 1), k requires 0 <= k => Event((k / c.maxFailed) * Lockout(c), SignIn(u, wrong, [])))
  }

  ghost function Hammered(c: Settings, a: Account, k: nat): Account
    requires Sensible(c)
  {
    a.(failed := k % c.maxFailed, lockedUntil := if k < c.maxFailed then None else Some((k / c.maxFailed) * Lockout(c)))
  }

  lemma NextAttempt(c: Settings, a: Account, k: nat)
    requires Sensible(c)
    ensures !LockedAt(Hammered(c, a, k), (k / c.maxFailed) * Lockout(c))
    ensures AfterFailure(c, Hammered(c, a, k), (k / c.maxFailed) * Lockout(c)) == Hammered(c, a, k + 1)
  {
    var m := c.maxFailed;
    var q, r := k / m, k % m;
    assert k == q * m + r;
    if r + 1 == m {
      assert k + 1 == (q + 1) * m + 0 by { assert (q + 1) * m == q * m + m; }
      Quotient(k + 1, m, q + 1, 0);
      assert (q + 1) * Lockout(c) == q * Lockout(c) + Lockout(c);
    } else {
      Quotient(k + 1, m, q, r + 1);
    }
    if k >= m { DivisionGrows(m, k, m); }
    if k < m { Quotient(k, m, 0, k); }
    if k + 1 >= m && r + 1 < m { assert q >= 1 by { if q < 1 { Quotient(k, m, 0, k); } } }
  }

  lemma WrongPassword(c: Settings, s: Tables, now: Time, u: Email, wrong: Secret)
    requires Normalize(u) == u && u in s.accounts && s.accounts[u].active && s.accounts[u].password != wrong
    requires !LockedAt(s.accounts[u], now)
    ensures var after := s.accounts[u := AfterFailure(c, s.accounts[u], now)];
            Handle(c, s, now, SignIn(u, wrong, [])) == (s.(accounts := after), InvalidCredentials)
    ensures FailsCheck(s, now, SignIn(u, wrong, []), u)
  {
  }

  /** The state the attack begins in. */
  ghost predicate Clear(s: Tables, u: Email, wrong: Secret) {
    && Normalize(u) == u && u in s.accounts
    && s.accounts[u].active && s.accounts[u].password != wrong
    && s.accounts[u].failed == 0 && s.accounts[u].lockedUntil == None
  }

  lemma {:induction false} HammeringFails(c: Settings, s: Tables, u: Email, wrong: Secret, windows: nat, k: nat)
    requires Sensible(c) && Clear(s, u, wrong)
    requires k <= |Hammering(c, u, wrong, windows)|
    ensures var run := Hammering(c, u, wrong, windows);
            && StateAt(c, s, run, k) == s.(accounts := s.accounts[u := Hammered(c, s.accounts[u], k)])
            && Failures(c, s, run, u, k) == k
  {
    hide Handle, AfterFailure, FailsCheck, Normalize, LockedAt, Hammered, Lockout;
    var run := Hammering(c, u, wrong, windows);
    var a := s.accounts[u];
    if k == 0 {
      assert Hammered(c, a, 0) == a by { HammeredAtFirst(c, s, u, wrong); }
      assert s.accounts[u := a] == s.accounts;
    } else {
      HammeringFails(c, s, u, wrong, windows, k - 1);
      NextAttempt(c, a, k - 1);
      var before := StateAt(c, s, run, k - 1);
      var now := ((k - 1) / c.maxFailed) * Lockout(c);
      assert run[k - 1] == Event(now, SignIn(u, wrong, []));
      assert before.accounts[u] == Hammered(c, a, k - 1);
      assert before.accounts[u].active && before.accounts[u].password == a.password by { HammeredKeeps(c, a, k - 1); }
      WrongPassword(c, before, now, u, wrong);
      assert before.accounts[u := Hammered(c, a, k)] == s.accounts[u := Hammered(c, a, k)];
      assert FailedAt(c, s, run, u, k - 1) == 1;
    }
  }

  lemma HammeredAtFirst(c: Settings, s: Tables, u: Email, wrong: Secret)
    requires Sensible(c) && Clear(s, u, wrong)
    ensures Hammered(c, s.accounts[u], 0) == s.accounts[u]
  {
  }

  lemma HammeredKeeps(c: Settings, a: Account, k: nat)
    requires Sensible(c)
    ensures Hammered(c, a, k).active == a.active && Hammered(c, a, k).password == a.password
  {
  }

  lemma HammeringTimes(c: Settings, u: Email, wrong: Secret, windows: nat, i: nat, j: nat)
    requires Sensible(c) && i <= j < |Hammering(c, u, wrong, windows)|
    ensures var run := Hammering(c, u, wrong, windows); 0 <= run[i].at <= run[j].at <= windows * Lockout(c)
  {
    var m, d := c.maxFailed, Lockout(c);
    hide Lockout;
    DivisionGrows(i, j, m);
    assert j / m <= windows by { if j / m > windows { ProductGrows(m, windows + 1, j / m); } }
    ProductGrows(d, 0, i / m);
    ProductGrows(d, i / m, j / m);
    ProductGrows(d, j / m, windows);
  }

  /** No smaller bound holds: for every whole number of lockouts there is a run that fails
      exactly M * (windows + 1) checks within that time and never signs in. */
  lemma LockoutBoundIsTight(c: Settings, s: Tables, u: Email, wrong: Secret, windows: nat)
    requires Sensible(c) && Clear(s, u, wrong)
    ensures var run := Hammering(c, u, wrong, windows);
            && InOrder(run) && NeverSignsIn(c, s, run, u)
            && (forall i :: 0 <= i < |run| ==> 0 <= run[i].at <= windows * Lockout(c))
            && Failures(c, s, run, u, |run|) == c.maxFailed * (windows + 1)
  {
    hide Failures, StateAt, Lockout, Handle;
    var run := Hammering(c, u, wrong, windows);
    HammeringFails(c, s, u, wrong, windows, |run|);
    forall k: nat | k < |run| ensures !SignsIn(c, StateAt(c, s, run, k), run[k], u) {
      HammeringNeverSignsIn(c, s, u, wrong, windows, k);
    }
    forall i: nat, j: nat | i <= j < |run| ensures 0 <= run[i].at <= run[j].at <= windows * Lockout(c) {
      HammeringTimes(c, u, wrong, windows, i, j);
    }
  }

  lemma HammeringNeverSignsIn(c: Settings, s: Tables, u: Email, wrong: Secret, windows: nat, k: nat)
    requires Sensible(c) && Clear(s, u, wrong)
    requires k < |Hammering(c, u, wrong, windows)|
    ensures var run := Hammering(c, u, wrong, windows); !SignsIn(c, StateAt(c, s, run, k), run[k], u)
  {
    hide Hammered, StateAt, Failures, Lockout;
    var run := Hammering(c, u, wrong, windows);
    HammeringFails(c, s, u, wrong, windows, k);
    HammeredKeeps(c, s.accounts[u], k);
    var now := StateAt(c, s, run, k);
    assert now.accounts[u].password != wrong;
    assert run[k].request == SignIn(u, wrong, []);
  }

  // ---- the lock holds, and only a full count sets it --------------------------------

  /** Once locked, the account stays locked until the time that was set: no request, not
      even a completed password reset or the right password, ends it early. */
  lemma {:induction false} LockHolds(c: Settings, s: Tables, run: seq<Event>, u: Email, until: Time, k: nat)
    requires u in s.accounts && s.accounts[u].lockedUntil == Some(until)
    requires k <= |run| && forall i :: 0 <= i < k ==> run[i].at < until
    ensures var now := StateAt(c, s, run, k); u in now.accounts && now.accounts[u].lockedUntil == Some(until)
    ensures k < |run| && run[k].at < until && run[k].request.SignIn? && Normalize(run[k].request.email) == u
            ==> OutcomeAt(c, s, run, k).Locked? && Failures(c, s, run, u, k + 1) == 0
    ensures Failures(c, s, run, u, k) == 0
  {
    hide Handle, SignsIn, FailsCheck, Normalize;
    if k > 0 {
      LockHolds(c, s, run, u, until, k - 1);
      LockedStep(c, StateAt(c, s, run, k - 1), run[k - 1], u, until);
    }
    if k < |run| && run[k].at < until { LockedStep(c, StateAt(c, s, run, k), run[k], u, until); }
  }

  /** A request before the lock ends: no check, and the lock as it was. */
  lemma LockedStep(c: Settings, s: Tables, e: Event, u: Email, until: Time)
    requires u in s.accounts && s.accounts[u].lockedUntil == Some(until) && e.at < until
    ensures !FailsCheck(s, e.at, e.request, u)
    ensures var after := Handle(c, s, e.at, e.request).0;
            u in after.accounts && after.accounts[u].lockedUntil == Some(until)
    ensures e.request.SignIn? && Normalize(e.request.email) == u ==> Handle(c, s, e.at, e.request).1.Locked?
  {
    hide RevokeAll, Rotate, Spend, Normalize, RetryAfter;
    CounterAfter(c, s, e, u);
  }

  /** Failed checks among the first `k` requests, since the last successful sign-in. */
  ghost function FailuresInARow(c: Settings, s: Tables, run: seq<Event>, u: Email, k: nat): nat
    requires k <= |run|
  {
    if k == 0 then 0
    else if SignsIn(c, StateAt(c, s, run, k - 1), run[k - 1], u) then 0
    else FailuresInARow(c, s, run, u, k - 1) + FailedAt(c, s, run, u, k - 1)
  }

  lemma CountingOn(c: Settings, s: Tables, e: Event, u: Email)
    requires u in s.accounts && s.accounts[u].lockedUntil == None
    ensures var after := Handle(c, s, e.at, e.request).0; u in after.accounts
    ensures var a := Handle(c, s, e.at, e.request).0.accounts[u];
            if SignsIn(c, s, e, u) then a.failed == 0 && a.lockedUntil == None
            else if !FailsCheck(s, e.at, e.request, u) then a.failed == s.accounts[u].failed && a.lockedUntil == None
            else s.accounts[u].failed + 1 < c.maxFailed ==>
                   a.failed == s.accounts[u].failed + 1 && a.lockedUntil == None
  {
    hide RevokeAll, Rotate, Spend, Normalize, RetryAfter;
    CounterAfter(c, s, e, u);
  }

  /** An account whose counter was clear is not locked before M checks have failed without
      a successful sign-in between them, and its counter is their number. */
  lemma {:induction false} NoEarlyLockout(c: Settings, s: Tables, run: seq<Event>, u: Email, k: nat)
    requires u in s.accounts && s.accounts[u].failed == 0 && s.accounts[u].lockedUntil == None
    requires k <= |run| && forall j: nat :: j <= k ==> FailuresInARow(c, s, run, u, j) < c.maxFailed
    ensures var now := StateAt(c, s, run, k);
            && u in now.accounts && now.accounts[u].lockedUntil == None
            && now.accounts[u].failed == FailuresInARow(c, s, run, u, k)
  {
    hide Handle, SignsIn, FailsCheck;
    if k > 0 {
      NoEarlyLockout(c, s, run, u, k - 1);
      assert FailuresInARow(c, s, run, u, k) < c.maxFailed;
      CountingOn(c, StateAt(c, s, run, k - 1), run[k - 1], u);
    }
  }

  /** The delay a locked-out caller is told to wait is cut to whole seconds: waiting exactly
      that long is enough if and only if what remains is a whole number of seconds or less
      than one second. */
  lemma AdvertisedDelayIsEnough(a: Account, now: Time)
    requires LockedAt(a, now)
    ensures var left := a.lockedUntil.value - now;
            !LockedAt(a, now + RetryAfter(a, now) * SECOND) <==> left < SECOND || left % SECOND == 0
  {
  }

  /** A second and a half is left, one second is advertised, and after it the account is
      still locked. */
  lemma AdvertisedDelayCanBeTooShort(a: Account)
    requires a.lockedUntil == Some(1_500_000)
    ensures LockedAt(a, 0) && RetryAfter(a, 0) == 1 && LockedAt(a, RetryAfter(a, 0) * SECOND)
  {
  }
}
