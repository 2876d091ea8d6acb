/** Token rotation, single use, and what a password reset ends, over whole runs. */
module TokenLifecycle {
  import opened Options
  import opened AuthDomain

  datatype Kind = RefreshTokens | ResetTokens | VerificationTokens

  function Table(s: Tables, kind: Kind): map<Raw, Token> {
    match kind
    case RefreshTokens => s.refresh
    case ResetTokens => s.resets
    case VerificationTokens => s.verifications
  }

  /** The request presents `raw` and acts on it. */
  ghost predicate Consumes(c: Settings, s: Tables, e: Event, kind: Kind, raw: Raw) {
    match e.request
    case Refresh(presented, _) => kind.RefreshTokens? && presented == raw && Handle(c, s, e.at, e.request).1.Refreshed?
    case SignOut(presented) => kind.RefreshTokens? && presented == raw && Handle(c, s, e.at, e.request).0 != s
    case ResetPassword(presented, _) => kind.ResetTokens? && presented == raw && Handle(c, s, e.at, e.request).1.Done?
    case VerifyEmail(presented) => kind.VerificationTokens? && presented == raw && Handle(c, s, e.at, e.request).1.Done?
    case _ => false
  }

  // ---- absorbing ------------------------------------------------------------------

  /** No row is deleted, no expiry, owner or origin changes, and spent stays spent. */
  ghost predicate Kept(before: map<Raw, Token>, after: map<Raw, Token>) {
    forall r :: r in before ==>
      && r in after
      && after[r].user == before[r].user && after[r].expires == before[r].expires && after[r].root == before[r].root
      && (before[r].spent.Some? ==> after[r].spent == before[r].spent)
  }

  lemma AddingKeeps(tokens: map<Raw, Token>, minted: Raw, t: Token)
    requires minted !in tokens
    ensures Kept(tokens, tokens[minted := t])
  {
  }

  lemma SpendingKeeps(tokens: map<Raw, Token>, raw: Raw, minted: Raw, t: Token, now: Time)
    requires raw in tokens && tokens[raw].spent.None?
    ensures Kept(tokens, Spend(tokens, raw, now))
    ensures minted !in tokens ==> Kept(tokens, Spend(tokens, raw, now)[minted := t])
  {
  }

  lemma RevokingKeeps(tokens: map<Raw, Token>, u: Email, now: Time)
    ensures Kept(tokens, tokens) && Kept(tokens, RevokeAll(tokens, u, now))
  {
  }

  lemma RefreshTokensKept(c: Settings, s: Tables, e: Event)
    ensures Kept(s.refresh, Handle(c, s, e.at, e.request).0.refresh)
  {
    hide Kept, Spend, RevokeAll, Normalize;
    var q, t, expires := e.request, s.refresh, e.at + c.refreshTtl * SECOND;
    RevokingKeeps(t, [], e.at);
    match q
    case SignIn(_, _, minted) =>
      if minted !in t { AddingKeeps(t, minted, Token(Normalize(q.email), expires, None, minted)); }
    case Refresh(raw, minted) =>
      if Usable(t, raw, e.at) { SpendingKeeps(t, raw, minted, Token(t[raw].user, expires, None, t[raw].root), e.at); }
    case SignOut(raw) => if Usable(t, raw, e.at) { SpendingKeeps(t, raw, raw, t[raw], e.at); }
    case ResetPassword(raw, _) => if raw in s.resets { RevokingKeeps(t, s.resets[raw].user, e.at); }
    case _ =>
  }

  lemma ResetTokensKept(c: Settings, s: Tables, e: Event)
    ensures Kept(s.resets, Handle(c, s, e.at, e.request).0.resets)
  {
    hide Kept, Spend, RevokeAll, Normalize, Rotate;
    var q, t := e.request, s.resets;
    RevokingKeeps(t, [], e.at);
    match q
    case RequestReset(_, minted) =>
      if minted !in t { AddingKeeps(t, minted, Token(Normalize(q.email), e.at + c.resetTtl * SECOND, None, minted)); }
    case ResetPassword(raw, _) => if Usable(t, raw, e.at) { SpendingKeeps(t, raw, raw, t[raw], e.at); }
    case _ =>
  }

  lemma VerificationTokensKept(c: Settings, s: Tables, e: Event)
    ensures Kept(s.verifications, Handle(c, s, e.at, e.request).0.verifications)
  {
    hide Kept, Spend, RevokeAll, Normalize, Rotate;
    var q, t := e.request, s.verifications;
    RevokingKeeps(t, [], e.at);
    match q
    case SignUp(_, _, minted) =>
      if minted !in t { AddingKeeps(t, minted, Token(Normalize(q.email), e.at + c.verifyTtl * SECOND, None, minted)); }
    case VerifyEmail(raw) => if Usable(t, raw, e.at) { SpendingKeeps(t, raw, raw, t[raw], e.at); }
    case _ =>
  }

  lemma StepKeeps(c: Settings, s: Tables, e: Event, kind: Kind)
    ensures Kept(Table(s, kind), Table(Handle(c, s, e.at, e.request).0, kind))
  {
    hide Handle, Kept;
    match kind
    case RefreshTokens => RefreshTokensKept(c, s, e);
    case ResetTokens => ResetTokensKept(c, s, e);
    case VerificationTokens => VerificationTokensKept(c, s, e);
  }

  lemma StateAfter(c: Settings, s: Tables, run: seq<Event>, i: nat)
    requires i < |run|
    ensures StateAt(c, s, run, i + 1) == Handle(c, StateAt(c, s, run, i), run[i].at, run[i].request).0
  {
  }

  lemma {:induction false} RunKeeps(c: Settings, s: Tables, run: seq<Event>, kind: Kind, i: nat, j: nat)
    requires i <= j <= |run|
    ensures Kept(Table(StateAt(c, s, run, i), kind), Table(StateAt(c, s, run, j), kind))
    decreases j
  {
    hide Handle;
    if i < j {
      RunKeeps(c, s, run, kind, i, j - 1);
      StepKeeps(c, StateAt(c, s, run, j - 1), run[j - 1], kind);
    }
  }

  /** A token that is once revoked, used or expired is never accepted again, whatever the
      requests that follow. */
  lemma DeadTokensStayDead(c: Settings, s: Tables, run: seq<Event>, kind: Kind, raw: Raw, i: nat, j: nat,
                           earlier: Time, now: Time)
    requires i <= j <= |run| && earlier <= now
    requires raw in Table(StateAt(c, s, run, i), kind) && !Usable(Table(StateAt(c, s, run, i), kind), raw, earlier)
    ensures !Usable(Table(StateAt(c, s, run, j), kind), raw, now)
  {
    RunKeeps(c, s, run, kind, i, j);
  }

  lemma ConsumedIsSpent(c: Settings, s: Tables, e: Event, kind: Kind, raw: Raw)
    requires Consumes(c, s, e, kind, raw)
    ensures Usable(Table(s, kind), raw, e.at)
    ensures var after := Table(Handle(c, s, e.at, e.request).0, kind); raw in after && after[raw].spent == Some(e.at)
  {
  }

  lemma NotConsumedAgain(c: Settings, s: Tables, run: seq<Event>, kind: Kind, raw: Raw, i: nat, j: nat)
    requires i < j < |run| && Consumes(c, StateAt(c, s, run, i), run[i], kind, raw)
    ensures !Consumes(c, StateAt(c, s, run, j), run[j], kind, raw)
  {
    hide Handle, Consumes, StateAt;
    StateAfter(c, s, run, i);
    ConsumedIsSpent(c, StateAt(c, s, run, i), run[i], kind, raw);
    RunKeeps(c, s, run, kind, i + 1, j);
    assert !Usable(Table(StateAt(c, s, run, j), kind), raw, run[j].at);
    if Consumes(c, StateAt(c, s, run, j), run[j], kind, raw) {
      ConsumedIsSpent(c, StateAt(c, s, run, j), run[j], kind, raw);
    }
  }

  /** Each token is good for one use. */
  lemma {:induction false} ConsumedOnce(c: Settings, s: Tables, run: seq<Event>, kind: Kind, raw: Raw, i: nat, j: nat)
    requires i < |run| && j < |run|
    requires Consumes(c, StateAt(c, s, run, i), run[i], kind, raw)
    requires Consumes(c, StateAt(c, s, run, j), run[j], kind, raw)
    ensures i == j
  {
    hide Handle, Consumes, StateAt;
    if i < j {
      NotConsumedAgain(c, s, run, kind, raw, i, j);
    } else if j < i {
      NotConsumedAgain(c, s, run, kind, raw, j, i);
    }
  }

  lemma ResetRevokes(c: Settings, s: Tables, e: Event, u: Email, raw: Raw)
    requires CompletesReset(c, s, e, u) && raw in s.refresh && s.refresh[raw].user == u
    ensures var after := Handle(c, s, e.at, e.request).0.refresh; raw in after && after[raw].spent.Some?
  {
  }

  /** A refresh token issued before a completed password reset of its owner is rejected by
      every later refresh, and no later sign-out acts on it. */
  lemma ResetEndsSessions(c: Settings, s: Tables, run: seq<Event>, u: Email, raw: Raw, i: nat, j: nat)
    requires i < j < |run| && CompletesReset(c, StateAt(c, s, run, i), run[i], u)
    requires raw in StateAt(c, s, run, i).refresh && StateAt(c, s, run, i).refresh[raw].user == u
    ensures !Consumes(c, StateAt(c, s, run, j), run[j], RefreshTokens, raw)
    ensures run[j].request.Refresh? && run[j].request.presented == raw ==> OutcomeAt(c, s, run, j) == InvalidToken
  {
    hide StateAt, Handle, CompletesReset;
    StateAfter(c, s, run, i);
    ResetRevokes(c, StateAt(c, s, run, i), run[i], u, raw);
    RunKeeps(c, s, run, RefreshTokens, i + 1, j);
    RevokedIsRejected(c, StateAt(c, s, run, j), run[j], raw);
  }

  lemma RevokedIsRejected(c: Settings, s: Tables, e: Event, raw: Raw)
    requires raw in s.refresh && s.refresh[raw].spent.Some?
    ensures !Consumes(c, s, e, RefreshTokens, raw)
    ensures e.request.Refresh? && e.request.presented == raw ==> Handle(c, s, e.at, e.request).1 == InvalidToken
  {
  }

  /** The request ends the session of `raw`: a refresh or a sign-out that presents the token
      itself in time, the refresh for an active account and under a hash not in use, or a
      password reset of the owner with a reset token good at the time. */
  ghost predicate EndsSession(s: Tables, e: Event, raw: Raw)
    requires raw in s.refresh
  {
    var t := s.refresh[raw];
    match e.request
    case Refresh(presented, minted) =>
      presented == raw && t.expires > e.at && t.user in s.accounts && s.accounts[t.user].active && minted !in s.refresh
    case SignOut(presented) => presented == raw && t.expires > e.at
    case ResetPassword(presented, _) =>
      Usable(s.resets, presented, e.at) && s.resets[presented].user == t.user && t.user in s.accounts
    case _ => false
  }

  /** A live refresh token is spent by exactly the requests that end its session: of the
      sibling tokens of a user, a refresh or a replay ends none. */
  lemma SessionEndsExactlyWhen(c: Settings, s: Tables, e: Event, raw: Raw)
    requires raw in s.refresh && s.refresh[raw].spent.None?
    ensures var after := Handle(c, s, e.at, e.request).0.refresh;
            raw in after && (after[raw].spent.Some? <==> EndsSession(s, e, raw))
  {
  }

  /** One account, two sessions; the first is refreshed, and its spent token is replayed. */
  function ReplayedRefresh(u: string, password: Secret): seq<Event> {
    [Event(0, Request.SignUp(u, password, "v")),
     Event(0, Request.SignIn(u, password, "first")),
     Event(0, Request.SignIn(u, password, "second")),
     Event(0, Request.Refresh("first", "next")),
     Event(0, Request.Refresh("first", "stolen"))]
  }

  lemma RunOn(c: Settings, s: Tables, run: seq<Event>, k: nat, t: Tables)
    requires k < |run| && StateAt(c, s, run, k) == t
    ensures StateAt(c, s, run, k + 1) == Handle(c, t, run[k].at, run[k].request).0
    ensures OutcomeAt(c, s, run, k) == Handle(c, t, run[k].at, run[k].request).1
  {
  }

  lemma StartOf(c: Settings, s: Tables, run: seq<Event>)
    ensures StateAt(c, s, run, 0) == s
  {
  }

  /** The tables once both sessions are open. */
  function TwoSessions(c: Settings, u: Email, password: Secret): Tables {
    var expires := c.refreshTtl * SECOND;
    Tables(map[u := Account(password, true, false, 0, None)],
           map["first" := Token(u, expires, None, "first"), "second" := Token(u, expires, None, "second")],
           map[],
           map["v" := Token(u, c.verifyTtl * SECOND, None, "v")])
  }

  lemma OpenSessions(c: Settings, s: Tables, u: string, password: Secret)
    requires s == Tables(map[], map[], map[], map[])
    ensures StateAt(c, s, ReplayedRefresh(u, password), 3) == TwoSessions(c, Normalize(u), password)
  {
    hide Normalize, StateAt, OutcomeAt;
    var run, v := ReplayedRefresh(u, password), Normalize(u);
    var t1 := TwoSessions(c, v, password).(refresh := map[]);
    var t2 := t1.(refresh := map["first" := Token(v, c.refreshTtl * SECOND, None, "first")]);
    StartOf(c, s, run);
    RunOn(c, s, run, 0, s);
    assert StateAt(c, s, run, 1) == t1;
    RunOn(c, s, run, 1, t1);
    assert StateAt(c, s, run, 2) == t2;
    RunOn(c, s, run, 2, t2);
  }

  /** Siblings are not revoked: neither the refresh nor the replay of the token it spent ends
      the account's other session or the successor's. */
  lemma SiblingsSurvive(c: Settings, s: Tables, u: string, password: Secret)
    requires s == Tables(map[], map[], map[], map[]) && c.refreshTtl > 0
    ensures var run := ReplayedRefresh(u, password);
            && OutcomeAt(c, s, run, 3) == Refreshed && OutcomeAt(c, s, run, 4) == InvalidToken
            && Usable(StateAt(c, s, run, 3).refresh, "first", 0) && Usable(StateAt(c, s, run, 3).refresh, "second", 0)
            && Usable(StateAt(c, s, run, 5).refresh, "second", 0) && Usable(StateAt(c, s, run, 5).refresh, "next", 0)
  {
    hide Normalize, StateAt, OutcomeAt;
    var run, t3 := ReplayedRefresh(u, password), TwoSessions(c, Normalize(u), password);
    OpenSessions(c, s, u, password);
    RunOn(c, s, run, 3, t3);
    var t4 := t3.(refresh := Rotate(t3.refresh, "first", "next", c.refreshTtl * SECOND, 0));
    assert StateAt(c, s, run, 4) == t4;
    RunOn(c, s, run, 4, t4);
  }

  // ---- what tokens and passwords are good for ----------------------------------------

  function TimeToLive(c: Settings, kind: Kind): int {
    match kind
    case RefreshTokens => c.refreshTtl
    case ResetTokens => c.resetTtl
    case VerificationTokens => c.verifyTtl
  }

  lemma NewRowExpires(c: Settings, s: Tables, e: Event, kind: Kind, raw: Raw)
    requires raw !in Table(s, kind) && raw in Table(Handle(c, s, e.at, e.request).0, kind)
    ensures Table(Handle(c, s, e.at, e.request).0, kind)[raw].expires == e.at + TimeToLive(c, kind) * SECOND
    ensures Table(Handle(c, s, e.at, e.request).0, kind)[raw].spent == None
  {
    hide Normalize;
    match e.request
    case SignUp(_, _, _) =>
    case SignIn(_, _, _) =>
    case Refresh(_, _) =>
    case SignOut(_) =>
    case RequestReset(_, _) =>
    case ResetPassword(_, _) =>
    case VerifyEmail(_) =>
    case SetActive(_, _) =>
  }

  /** A token that a run has issued was issued by one of its requests, and is good until its
      kind's lifetime after that request: no rotation extends it. */
  lemma {:induction false} TokenLifetime(c: Settings, s: Tables, run: seq<Event>, kind: Kind, raw: Raw, k: nat)
    returns (j: nat)
    requires k <= |run| && raw !in Table(s, kind) && raw in Table(StateAt(c, s, run, k), kind)
    ensures j < k && raw !in Table(StateAt(c, s, run, j), kind)
    ensures Table(StateAt(c, s, run, k), kind)[raw].expires == run[j].at + TimeToLive(c, kind) * SECOND
  {
    hide Handle;
    if raw in Table(StateAt(c, s, run, k - 1), kind) {
      j := TokenLifetime(c, s, run, kind, raw, k - 1);
      StepKeeps(c, StateAt(c, s, run, k - 1), run[k - 1], kind);
    } else {
      j := k - 1;
      NewRowExpires(c, StateAt(c, s, run, j), run[j], kind, raw);
    }
  }

  /** The request consumes a verification token of `u`. */
  ghost predicate Verifies(c: Settings, s: Tables, e: Event, u: Email) {
    e.request.VerifyEmail? && Consumes(c, s, e, VerificationTokens, e.request.presented)
    && s.verifications[e.request.presented].user == u
  }

  lemma StepVerifies(c: Settings, s: Tables, e: Event, u: Email)
    ensures var after := Handle(c, s, e.at, e.request).0;
            u in after.accounts && after.accounts[u].verified
            <==> (u in s.accounts && s.accounts[u].verified) || Verifies(c, s, e, u)
  {
    hide Normalize;
    match e.request
    case SignUp(_, _, _) =>
    case SignIn(_, _, _) =>
    case Refresh(_, _) =>
    case SignOut(_) =>
    case RequestReset(_, _) =>
    case ResetPassword(_, _) =>
    case VerifyEmail(_) =>
    case SetActive(_, _) =>
  }

  /** An account is verified exactly if it was, or one of its tokens has been consumed. */
  lemma {:induction false} VerifiedExactlyWhen(c: Settings, s: Tables, run: seq<Event>, u: Email, k: nat)
    requires k <= |run|
    ensures (u in StateAt(c, s, run, k).accounts && StateAt(c, s, run, k).accounts[u].verified)
            <==> (u in s.accounts && s.accounts[u].verified)
                 || exists j: nat :: j < k && Verifies(c, StateAt(c, s, run, j), run[j], u)
  {
    hide Handle, Verifies;
    if k > 0 {
      VerifiedExactlyWhen(c, s, run, u, k - 1);
      StepVerifies(c, StateAt(c, s, run, k - 1), run[k - 1], u);
    }
  }

  /** The password last set for `u`, by the sign-up or a completed reset. */
  ghost function CurrentPassword(c: Settings, s: Tables, run: seq<Event>, u: Email, k: nat): Option<Secret>
    requires k <= |run|
  {
    if k == 0 then if u in s.accounts then Some(s.accounts[u].password) else None
    else
      var before, e := StateAt(c, s, run, k - 1), run[k - 1];
      if e.request.SignUp? && Normalize(e.request.email) == u && Handle(c, before, e.at, e.request).1.SignedUp?
      then Some(e.request.password)
      else if CompletesReset(c, before, e, u) then Some(e.request.password)
      else CurrentPassword(c, s, run, u, k - 1)
  }

  lemma StepPassword(c: Settings, s: Tables, e: Event, u: Email)
    ensures var (after, outcome) := Handle(c, s, e.at, e.request);
            if (e.request.SignUp? && Normalize(e.request.email) == u && outcome.SignedUp?) || CompletesReset(c, s, e, u)
            then u in after.accounts && after.accounts[u].password == e.request.password
            else (u in after.accounts <==> u in s.accounts)
                 && (u in s.accounts ==> after.accounts[u].password == s.accounts[u].password)
  {
    match e.request
    case SignUp(_, _, _) =>
    case SignIn(_, _, _) =>
    case Refresh(_, _) =>
    case SignOut(_) =>
    case RequestReset(_, _) =>
    case ResetPassword(_, _) =>
    case VerifyEmail(_) =>
    case SetActive(_, _) =>
  }

  lemma {:induction false} PasswordIsCurrent(c: Settings, s: Tables, run: seq<Event>, u: Email, k: nat)
    requires k <= |run|
    ensures var now := StateAt(c, s, run, k);
            if u in now.accounts then CurrentPassword(c, s, run, u, k) == Some(now.accounts[u].password)
            else CurrentPassword(c, s, run, u, k) == None
  {
    hide Handle, CompletesReset, Normalize;
    if k > 0 {
      PasswordIsCurrent(c, s, run, u, k - 1);
      StepPassword(c, StateAt(c, s, run, k - 1), run[k - 1], u);
    }
  }

  /** An active account that is not locked is signed in to exactly with the password last set
      for it; every other password is a failed check. */
  lemma OnlyTheLastPasswordWorks(c: Settings, s: Tables, run: seq<Event>, u: Email, k: nat)
    requires k < |run| && run[k].request.SignIn? && Normalize(run[k].request.email) == u
    requires var now := StateAt(c, s, run, k);
             && u in now.accounts && now.accounts[u].active && !LockedAt(now.accounts[u], run[k].at)
             && run[k].request.minted !in now.refresh
    ensures SignsIn(c, StateAt(c, s, run, k), run[k], u)
            <==> CurrentPassword(c, s, run, u, k) == Some(run[k].request.password)
    ensures FailsCheck(StateAt(c, s, run, k), run[k].at, run[k].request, u)
            <==> CurrentPassword(c, s, run, u, k) != Some(run[k].request.password)
  {
    PasswordIsCurrent(c, s, run, u, k);
    hide CurrentPassword, StateAt, Normalize;
  }

  // ---- rotation chains --------------------------------------------------------------

  /** Every token belongs to the chain of a token that a sign-in issued to its owner. */
  ghost predicate Founded(tokens: map<Raw, Token>) {
    forall r :: r in tokens ==> FoundedAs(tokens, tokens[r])
  }

  ghost predicate FoundedAs(tokens: map<Raw, Token>, t: Token) {
    t.root in tokens && tokens[t.root].root == t.root && tokens[t.root].user == t.user
  }

  /** At most one token of a chain is not spent. */
  ghost predicate Sole(tokens: map<Raw, Token>) {
    forall r, q :: Live(tokens, r) && Live(tokens, q) && tokens[r].root == tokens[q].root ==> r == q
  }

  ghost predicate Live(tokens: map<Raw, Token>, r: Raw) {
    r in tokens && tokens[r].spent.None?
  }

  ghost predicate Chained(tokens: map<Raw, Token>) {
    Founded(tokens) && Sole(tokens)
  }

  lemma SpendingKeepsChains(before: map<Raw, Token>, after: map<Raw, Token>)
    requires Chained(before) && Kept(before, after) && after.Keys == before.Keys
    ensures Chained(after)
  {
  }

  lemma GrowingKeepsChains(before: map<Raw, Token>, minted: Raw, t: Token)
    requires Chained(before) && minted !in before && FoundedAs(before[minted := t], t)
    requires forall r :: Live(before, r) ==> before[r].root != t.root
    ensures Chained(before[minted := t])
  {
  }

  lemma OwnFoundation(tokens: map<Raw, Token>, r: Raw)
    requires Founded(tokens) && r in tokens
    ensures FoundedAs(tokens, tokens[r])
  {
  }

  /** Once its live token is spent, a chain has none. */
  lemma SpendingEndsChain(tokens: map<Raw, Token>, raw: Raw, now: Time)
    requires Chained(tokens) && Usable(tokens, raw, now)
    ensures var after := Spend(tokens, raw, now);
            && Chained(after) && raw in after && FoundedAs(after, after[raw])
            && forall r :: Live(after, r) ==> after[r].root != tokens[raw].root
  {
    hide Founded, FoundedAs;
    var after := Spend(tokens, raw, now);
    SpendingKeepsChains(tokens, after);
    OwnFoundation(after, raw);
    assert Live(tokens, raw);
    forall r | Live(after, r) ensures after[r].root != tokens[raw].root {
      assert r != raw && Live(tokens, r);
    }
  }

  lemma RotateKeepsChains(tokens: map<Raw, Token>, raw: Raw, minted: Raw, expires: Time, now: Time)
    requires Chained(tokens) && Usable(tokens, raw, now) && minted !in tokens
    ensures Chained(Rotate(tokens, raw, minted, expires, now))
  {
    hide Chained, Live;
    var after := Spend(tokens, raw, now);
    SpendingEndsChain(tokens, raw, now);
    var t := Token(tokens[raw].user, expires, None, tokens[raw].root);
    assert FoundedAs(after[minted := t], t);
    GrowingKeepsChains(after, minted, t);
  }

  lemma IssueKeepsChains(tokens: map<Raw, Token>, minted: Raw, u: Email, expires: Time)
    requires Chained(tokens) && minted !in tokens
    ensures Chained(tokens[minted := Token(u, expires, None, minted)])
  {
  }

  lemma StepKeepsChains(c: Settings, s: Tables, e: Event)
    requires Chained(s.refresh)
    ensures Chained(Handle(c, s, e.at, e.request).0.refresh)
  {
    hide Chained, Rotate;
    var q := e.request;
    match q
    case SignIn(_, _, minted) =>
      if minted !in s.refresh { IssueKeepsChains(s.refresh, minted, Normalize(q.email), e.at + c.refreshTtl * SECOND); }
    case Refresh(raw, minted) =>
      if Usable(s.refresh, raw, e.at) && minted !in s.refresh {
        RotateKeepsChains(s.refresh, raw, minted, e.at + c.refreshTtl * SECOND, e.at);
      }
    case SignOut(raw) =>
      if Usable(s.refresh, raw, e.at) { SpendingKeepsChains(s.refresh, Spend(s.refresh, raw, e.at)); }
    case ResetPassword(raw, _) =>
      if raw in s.resets { SpendingKeepsChains(s.refresh, RevokeAll(s.refresh, s.resets[raw].user, e.at)); }
    case _ =>
  }

  lemma {:induction false} RunKeepsChains(c: Settings, s: Tables, run: seq<Event>, k: nat)
    requires s.refresh == map[] && k <= |run|
    ensures Chained(StateAt(c, s, run, k).refresh)
  {
    hide Handle;
    if k > 0 {
      RunKeepsChains(c, s, run, k - 1);
      StepKeepsChains(c, StateAt(c, s, run, k - 1), run[k - 1]);
    }
  }

  /** However often tokens are rotated, two tokens of one sign-in are never both accepted. */
  lemma OneActiveTokenPerSignIn(c: Settings, s: Tables, run: seq<Event>, k: nat, r: Raw, q: Raw, now: Time)
    requires s.refresh == map[] && k <= |run|
    requires var tokens := StateAt(c, s, run, k).refresh;
             Usable(tokens, r, now) && Usable(tokens, q, now) && tokens[r].root == tokens[q].root
    ensures r == q
  {
    RunKeepsChains(c, s, run, k);
    assert Live(StateAt(c, s, run, k).refresh, r) && Live(StateAt(c, s, run, k).refresh, q);
  }

  // ---- sessions since the last reset ------------------------------------------------

  /** Successful sign-ins of `u` among the first `k` requests, since its last completed reset. */
  ghost function SignInsSinceReset(c: Settings, s: Tables, run: seq<Event>, u: Email, k: nat): nat
    requires k <= |run|
  {
    if k == 0 then 0
    else
      var before := StateAt(c, s, run, k - 1);
      if CompletesReset(c, before, run[k - 1], u) then 0
      else SignInsSinceReset(c, s, run, u, k - 1) + (if SignsIn(c, before, run[k - 1], u) then 1 else 0)
  }

  /** The tokens those sign-ins issued. */
  ghost function RootsSinceReset(c: Settings, s: Tables, run: seq<Event>, u: Email, k: nat): set<Raw>
    requires k <= |run|
  {
    if k == 0 then {}
    else
      var before := StateAt(c, s, run, k - 1);
      if CompletesReset(c, before, run[k - 1], u) then {}
      else RootsSinceReset(c, s, run, u, k - 1)
           + (if SignsIn(c, before, run[k - 1], u) then {run[k - 1].request.minted} else {})
  }

  lemma {:induction false} RootsAreFew(c: Settings, s: Tables, run: seq<Event>, u: Email, k: nat)
    requires k <= |run|
    ensures |RootsSinceReset(c, s, run, u, k)| <= SignInsSinceReset(c, s, run, u, k)
  {
    hide Handle, SignsIn, CompletesReset, StateAt;
    if k > 0 { RootsAreFew(c, s, run, u, k - 1); }
  }

  /** Unspent tokens of `u`. */
  ghost function Unspent(tokens: map<Raw, Token>, u: Email): set<Raw> {
    set r | r in tokens && tokens[r].user == u && tokens[r].spent.None?
  }

  ghost function RootsOf(tokens: map<Raw, Token>, u: Email): set<Raw> {
    set r | r in tokens && tokens[r].user == u && tokens[r].spent.None? :: tokens[r].root
  }

  /** Rotation starts no chain, and spending or revoking only takes chains away. */
  lemma SpendingRoots(tokens: map<Raw, Token>, raw: Raw, minted: Raw, expires: Time, now: Time, u: Email)
    requires Usable(tokens, raw, now) && minted !in tokens
    ensures RootsOf(Rotate(tokens, raw, minted, expires, now), u) <= RootsOf(tokens, u)
  {
  }

  lemma SigningOutRoots(tokens: map<Raw, Token>, raw: Raw, now: Time, u: Email)
    requires Usable(tokens, raw, now)
    ensures RootsOf(Spend(tokens, raw, now), u) <= RootsOf(tokens, u)
  {
  }

  lemma RevokingRoots(tokens: map<Raw, Token>, v: Email, now: Time, u: Email)
    ensures RootsOf(RevokeAll(tokens, v, now), u) <= RootsOf(tokens, u)
    ensures u == v ==> RootsOf(RevokeAll(tokens, v, now), u) == {}
  {
  }

  lemma IssuingRoots(tokens: map<Raw, Token>, minted: Raw, v: Email, expires: Time, u: Email)
    requires minted !in tokens
    ensures RootsOf(tokens[minted := Token(v, expires, None, minted)], u) <= RootsOf(tokens, u)
            + (if u == v then {minted} else {})
  {
  }

  /** Only a sign-in starts a chain, and a reset ends all of them. */
  lemma StepRoots(c: Settings, s: Tables, e: Event, u: Email)
    ensures var after := Handle(c, s, e.at, e.request).0.refresh;
            && (CompletesReset(c, s, e, u) ==> RootsOf(after, u) == {})
            && RootsOf(after, u) <= RootsOf(s.refresh, u) + (if SignsIn(c, s, e, u) then {e.request.minted} else {})
  {
    hide RootsOf, Spend, Rotate, RevokeAll;
    var q := e.request;
    match q
    case SignIn(_, _, minted) =>
      if minted !in s.refresh { IssuingRoots(s.refresh, minted, Normalize(q.email), e.at + c.refreshTtl * SECOND, u); }
    case Refresh(raw, minted) =>
      if Usable(s.refresh, raw, e.at) && minted !in s.refresh {
        SpendingRoots(s.refresh, raw, minted, e.at + c.refreshTtl * SECOND, e.at, u);
      }
    case SignOut(raw) =>
      if Usable(s.refresh, raw, e.at) { SigningOutRoots(s.refresh, raw, e.at, u); }
    case ResetPassword(raw, _) =>
      if raw in s.resets { RevokingRoots(s.refresh, s.resets[raw].user, e.at, u); }
    case _ =>
  }

  lemma {:induction false} RootsAreRecent(c: Settings, s: Tables, run: seq<Event>, u: Email, k: nat)
    requires s.refresh == map[] && k <= |run|
    ensures RootsOf(StateAt(c, s, run, k).refresh, u) <= RootsSinceReset(c, s, run, u, k)
  {
    hide Handle, SignsIn, CompletesReset;
    if k > 0 {
      RootsAreRecent(c, s, run, u, k - 1);
      StepRoots(c, StateAt(c, s, run, k - 1), run[k - 1], u);
    }
  }

  lemma {:induction false} RootsTellApart(tokens: map<Raw, Token>, live: set<Raw>)
    requires Chained(tokens) && forall r :: r in live ==> Live(tokens, r)
    ensures |live| == |set r | r in live :: tokens[r].root|
  {
    var roots := set r | r in live :: tokens[r].root;
    if live == {} {
      assert roots == {};
    } else {
      var q :| q in live;
      var rest := live - {q};
      RootsTellApart(tokens, rest);
      assert roots == (set r | r in rest :: tokens[r].root) + {tokens[q].root};
      assert tokens[q].root !in (set r | r in rest :: tokens[r].root);
    }
  }

  lemma SubsetIsSmaller<T>(a: set<T>, b: set<T>)
    requires a <= b
    ensures |a| <= |b|
  {
    assert b == a + (b - a);
  }

  /** A user never has more live refresh tokens than successful sign-ins since the last
      completed password reset. */
  lemma SessionsAreBounded(c: Settings, s: Tables, run: seq<Event>, u: Email, k: nat)
    requires s.refresh == map[] && k <= |run|
    ensures |Unspent(StateAt(c, s, run, k).refresh, u)| <= SignInsSinceReset(c, s, run, u, k)
  {
    hide Handle, Chained;
    var tokens := StateAt(c, s, run, k).refresh;
    RunKeepsChains(c, s, run, k);
    RootsTellApart(tokens, Unspent(tokens, u));
    assert RootsOf(tokens, u) == (set r | r in Unspent(tokens, u) :: tokens[r].root);
    RootsAreRecent(c, s, run, u, k);
    SubsetIsSmaller(RootsOf(tokens, u), RootsSinceReset(c, s, run, u, k));
    RootsAreFew(c, s, run, u, k);
  }
}
