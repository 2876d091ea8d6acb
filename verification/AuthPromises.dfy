/** What a caller of the service can rely on: what each answer means, whom a request touches,
    and that a token issued for an address does for that account what it was issued for. */
module AuthPromises {
  import opened Options
  import opened Text
  import opened AuthDomain
  import opened TokenLifecycle

  // ---- addresses ------------------------------------------------------------------------

  /** Two spellings name the same account exactly if, without the white space around them,
      they differ in the case of letters at most. */
  lemma SameAddressExactly(e: string, f: string, i: nat, j: nat, m: nat, n: nat)
    requires Trims(e, i, j) && Trims(f, m, n)
    ensures var x, y := e[i..j], f[m..n];
            Normalize(e) == Normalize(f) <==> |x| == |y| && forall k :: 0 <= k < |x| ==> SameLetter(x[k], y[k])
  {
    StripTrims(e, i, j);
    StripTrims(f, m, n);
    LowerForgetsCase(e[i..j], f[m..n]);
  }

  // ---- what an answer means -----------------------------------------------------------

  /** A known address whose account is not locked and may sign in. */
  predicate Open(s: Tables, u: Email, now: Time) {
    && u in s.accounts && s.accounts[u].active
    && (s.accounts[u].lockedUntil.Some? ==> s.accounts[u].lockedUntil.value <= now)
  }

  /** An unknown address and a wrong password are answered alike; a lock is told before
      anything else about an account, and a password is looked at only if it is open. */
  lemma SignInAnswers(c: Settings, s: Tables, e: Event)
    requires e.request.SignIn?
    ensures var u, r := Normalize(e.request.email), Handle(c, s, e.at, e.request).1;
            && (r.SignedIn? <==> Open(s, u, e.at) && s.accounts[u].password == e.request.password
                                 && e.request.minted !in s.refresh)
            && (r.Locked? <==> u in s.accounts && s.accounts[u].lockedUntil.Some?
                               && s.accounts[u].lockedUntil.value > e.at)
            && (r.Inactive? <==> u in s.accounts && !s.accounts[u].active && !r.Locked?)
            && (r.InvalidCredentials? <==> u !in s.accounts
                                           || (Open(s, u, e.at) && s.accounts[u].password != e.request.password))
            && (r.Locked? || r.Inactive? || r.Fault? || u !in s.accounts ==> Handle(c, s, e.at, e.request).0 == s)
  {
    hide Normalize, RetryAfter;
  }

  /** A reset token is issued exactly for an address with an active account. */
  lemma ResetAnswers(c: Settings, s: Tables, e: Event)
    requires e.request.RequestReset?
    ensures var u, r := Normalize(e.request.email), Handle(c, s, e.at, e.request).1;
            && (r.ResetIssued? <==> u in s.accounts && s.accounts[u].active && e.request.minted !in s.resets)
            && (r.NoAccount? <==> u !in s.accounts || !s.accounts[u].active)
            && (!r.ResetIssued? ==> Handle(c, s, e.at, e.request).0 == s)
  {
    hide Normalize;
  }

  lemma SignUpAnswers(c: Settings, s: Tables, e: Event)
    requires e.request.SignUp?
    ensures var u, r := Normalize(e.request.email), Handle(c, s, e.at, e.request).1;
            && (r.AlreadyRegistered? <==> u in s.accounts)
            && (r.SignedUp? <==> u !in s.accounts && e.request.minted !in s.verifications)
            && (!r.SignedUp? ==> Handle(c, s, e.at, e.request).0 == s)
  {
    hide Normalize;
  }

  /** The token is in the table, not spent, and expires later than now. */
  predicate Good(tokens: map<Raw, Token>, raw: Raw, now: Time) {
    raw in tokens && tokens[raw].spent == None && now < tokens[raw].expires
  }

  /** A request that presents a token is refused exactly if the token is not good or its owner
      is gone, or for a refresh inactive; a refusal changes nothing, and a sign-out is never
      refused. */
  lemma TokenAnswers(c: Settings, s: Tables, e: Event)
    ensures var q, (after, r) := e.request, Handle(c, s, e.at, e.request);
            && (q.Refresh? ==>
                  && (r.InvalidToken? <==> !Good(s.refresh, q.presented, e.at)
                                           || s.refresh[q.presented].user !in s.accounts
                                           || !s.accounts[s.refresh[q.presented].user].active)
                  && (r.Refreshed? <==> !r.InvalidToken? && q.minted !in s.refresh)
                  && (!r.Refreshed? ==> after == s))
            && (q.SignOut? ==> r == Done && (!Good(s.refresh, q.presented, e.at) ==> after == s))
            && (q.ResetPassword? ==>
                  && (r.Done? <==> Good(s.resets, q.presented, e.at)
                                   && s.resets[q.presented].user in s.accounts)
                  && (!r.Done? ==> r == InvalidToken && after == s))
            && (q.VerifyEmail? ==>
                  && (r.Done? <==> Good(s.verifications, q.presented, e.at)
                                   && s.verifications[q.presented].user in s.accounts)
                  && (!r.Done? ==> r == InvalidToken && after == s))
  {
    hide Normalize, RevokeAll, Rotate, Spend;
  }

  // ---- whom a request touches -----------------------------------------------------------

  function OwnerIn(tokens: map<Raw, Token>, raw: Raw): Option<Email> {
    if raw in tokens then Some(tokens[raw].user) else None
  }

  /** The account a request is about: that of the address it names, or the owner of the
      token it presents. */
  function Subject(s: Tables, q: Request): Option<Email> {
    match q
    case SignUp(email, _, _) => Some(Normalize(email))
    case SignIn(email, _, _) => Some(Normalize(email))
    case RequestReset(email, _) => Some(Normalize(email))
    case SetActive(email, _) => Some(Normalize(email))
    case Refresh(raw, _) => OwnerIn(s.refresh, raw)
    case SignOut(raw) => OwnerIn(s.refresh, raw)
    case ResetPassword(raw, _) => OwnerIn(s.resets, raw)
    case VerifyEmail(raw) => OwnerIn(s.verifications, raw)
  }

  /** `v` has the tokens it had, in the state they had. */
  ghost predicate SameTokens(before: map<Raw, Token>, after: map<Raw, Token>, v: Email) {
    && (forall r :: r in before && before[r].user == v ==> r in after && after[r] == before[r])
    && (forall r :: r in after && after[r].user == v ==> r in before && before[r] == after[r])
  }

  lemma RevokingTouchesOne(tokens: map<Raw, Token>, u: Email, now: Time, v: Email)
    requires u != v
    ensures SameTokens(tokens, RevokeAll(tokens, u, now), v)
  {
  }

  lemma RotatingTouchesOne(tokens: map<Raw, Token>, raw: Raw, minted: Raw, expires: Time, now: Time, v: Email)
    requires raw in tokens && minted !in tokens && tokens[raw].user != v
    ensures SameTokens(tokens, Rotate(tokens, raw, minted, expires, now), v)
  {
  }

  lemma SpendingTouchesOne(tokens: map<Raw, Token>, raw: Raw, now: Time, v: Email)
    requires raw in tokens && tokens[raw].user != v
    ensures SameTokens(tokens, Spend(tokens, raw, now), v)
  {
  }

  lemma NothingTouchesOne(tokens: map<Raw, Token>, v: Email)
    ensures SameTokens(tokens, tokens, v)
  {
  }

  lemma AddingTouchesOne(tokens: map<Raw, Token>, minted: Raw, t: Token, v: Email)
    requires minted !in tokens && t.user != v
    ensures SameTokens(tokens, tokens[minted := t], v)
  {
  }

  lemma TouchesOneRefreshTable(c: Settings, s: Tables, e: Event, v: Email)
    requires Subject(s, e.request) != Some(v)
    ensures SameTokens(s.refresh, Handle(c, s, e.at, e.request).0.refresh, v)
  {
    var q, t, expires := e.request, s.refresh, e.at + c.refreshTtl * SECOND;
    NothingTouchesOne(t, v);
    hide Normalize, RevokeAll, Rotate, Spend, SameTokens, RetryAfter, LockedAt;
    match q
    case SignIn(email, _, minted) =>
      if minted !in t { AddingTouchesOne(t, minted, Token(Normalize(email), expires, None, minted), v); }
    case Refresh(raw, minted) => if raw in t && minted !in t { RotatingTouchesOne(t, raw, minted, expires, e.at, v); }
    case SignOut(raw) => if raw in t { SpendingTouchesOne(t, raw, e.at, v); }
    case ResetPassword(raw, _) => if raw in s.resets { RevokingTouchesOne(t, s.resets[raw].user, e.at, v); }
    case _ =>
  }

  lemma TouchesOneResetTable(c: Settings, s: Tables, e: Event, v: Email)
    requires Subject(s, e.request) != Some(v)
    ensures SameTokens(s.resets, Handle(c, s, e.at, e.request).0.resets, v)
  {
    hide Normalize, RevokeAll, Rotate;
    var q, after := e.request, Handle(c, s, e.at, e.request).0.resets;
    if q.RequestReset? || q.ResetPassword? {
    } else {
      assert after == s.resets;
    }
  }

  lemma TouchesOneVerificationTable(c: Settings, s: Tables, e: Event, v: Email)
    requires Subject(s, e.request) != Some(v)
    ensures SameTokens(s.verifications, Handle(c, s, e.at, e.request).0.verifications, v)
  {
    hide Normalize, RevokeAll, Rotate;
    var q, after := e.request, Handle(c, s, e.at, e.request).0.verifications;
    if q.SignUp? || q.VerifyEmail? {
    } else {
      assert after == s.verifications;
    }
  }

  lemma TouchesOneAccount(c: Settings, s: Tables, e: Event, v: Email)
    requires Subject(s, e.request) != Some(v)
    ensures var after := Handle(c, s, e.at, e.request).0;
            (v in after.accounts <==> v in s.accounts) && (v in s.accounts ==> after.accounts[v] == s.accounts[v])
  {
    hide Normalize, RevokeAll;
    var q := e.request;
    match q
    case SignUp(_, _, _) =>
    case SignIn(_, _, _) =>
    case SetActive(_, _) =>
    case ResetPassword(_, _) =>
    case VerifyEmail(_) =>
    case _ =>
  }

  /** No request about one account changes another, or any token of another: it issues none
      to it and spends none. */
  lemma OthersUntouched(c: Settings, s: Tables, e: Event, v: Email)
    requires Subject(s, e.request) != Some(v)
    ensures var after := Handle(c, s, e.at, e.request).0;
            && (v in after.accounts <==> v in s.accounts) && (v in s.accounts ==> after.accounts[v] == s.accounts[v])
            && forall kind :: SameTokens(Table(s, kind), Table(after, kind), v)
  {
    hide Handle, SameTokens;
    TouchesOneAccount(c, s, e, v);
    TouchesOneRefreshTable(c, s, e, v);
    TouchesOneResetTable(c, s, e, v);
    TouchesOneVerificationTable(c, s, e, v);
  }

  /** Whether `u` may sign in, as last decided: by the sign-up, or from outside. */
  ghost function LastActive(c: Settings, s: Tables, run: seq<Event>, u: Email, k: nat): Option<bool>
    requires k <= |run|
  {
    if k == 0 then if u in s.accounts then Some(s.accounts[u].active) else None
    else
      var q, before := run[k - 1].request, LastActive(c, s, run, u, k - 1);
      if q.SignUp? && Normalize(q.email) == u && OutcomeAt(c, s, run, k - 1) == SignedUp then Some(true)
      else if q.SetActive? && Normalize(q.email) == u && before.Some? then Some(q.active)
      else before
  }

  lemma StepActive(c: Settings, s: Tables, e: Event, u: Email)
    ensures var (after, r), q := Handle(c, s, e.at, e.request), e.request;
            && (u in after.accounts <==> u in s.accounts || (q.SignUp? && Normalize(q.email) == u && r == SignedUp))
            && (u in after.accounts ==>
                  after.accounts[u].active
                  == if q.SignUp? && Normalize(q.email) == u && r == SignedUp then true
                     else if q.SetActive? && Normalize(q.email) == u then q.active
                     else s.accounts[u].active)
  {
    hide Normalize, RevokeAll, Rotate, Spend;
    match e.request
    case SignUp(_, _, _) =>
    case SignIn(_, _, _) =>
    case Refresh(_, _) =>
    case SignOut(_) =>
    case RequestReset(_, _) =>
    case ResetPassword(_, _) =>
    case VerifyEmail(_) =>
    case SetActive(_, _) =>
  }

  /** No request of the service makes an account active or inactive but the sign-up that
      creates it; a reset in particular does not. */
  lemma {:induction false} ActiveExactlyAsSet(c: Settings, s: Tables, run: seq<Event>, u: Email, k: nat)
    requires k <= |run|
    ensures var now := StateAt(c, s, run, k).accounts;
            LastActive(c, s, run, u, k) == if u in now then Some(now[u].active) else None
  {
    hide Handle, Normalize;
    if k > 0 {
      ActiveExactlyAsSet(c, s, run, u, k - 1);
      StepActive(c, StateAt(c, s, run, k - 1), run[k - 1], u);
    }
  }

  // ---- accounts over a run ------------------------------------------------------------

  lemma {:induction false} AccountsStay(c: Settings, s: Tables, run: seq<Event>, u: Email, i: nat, j: nat)
    requires i <= j <= |run| && u in StateAt(c, s, run, i).accounts
    ensures u in StateAt(c, s, run, j).accounts
    ensures StateAt(c, s, run, i).accounts[u].verified ==> StateAt(c, s, run, j).accounts[u].verified
    decreases j
  {
    hide Handle;
    if i < j {
      AccountsStay(c, s, run, u, i, j - 1);
      StepVerifies(c, StateAt(c, s, run, j - 1), run[j - 1], u);
      StepPassword(c, StateAt(c, s, run, j - 1), run[j - 1], u);
    }
  }

  /** Which request a token of a kind is for. */
  ghost predicate Presents(q: Request, kind: Kind, raw: Raw) {
    match kind
    case RefreshTokens => (q.Refresh? || q.SignOut?) && q.presented == raw
    case ResetTokens => q.ResetPassword? && q.presented == raw
    case VerificationTokens => q.VerifyEmail? && q.presented == raw
  }

  lemma StaysUnspent(c: Settings, s: Tables, e: Event, kind: Kind, raw: Raw)
    requires !kind.RefreshTokens? && raw in Table(s, kind) && Table(s, kind)[raw].spent.None?
    requires !Presents(e.request, kind, raw)
    ensures var after := Table(Handle(c, s, e.at, e.request).0, kind); raw in after && after[raw] == Table(s, kind)[raw]
  {
    hide Normalize, RevokeAll, Rotate;
    StepKeeps(c, s, e, kind);
  }

  /** Not presented between two requests, a reset or verification token is as it was. */
  lemma {:induction false} UnpresentedStays(c: Settings, s: Tables, run: seq<Event>, kind: Kind, raw: Raw, i: nat,
                                            j: nat)
    requires i <= j <= |run| && !kind.RefreshTokens?
    requires raw in Table(StateAt(c, s, run, i), kind) && Table(StateAt(c, s, run, i), kind)[raw].spent.None?
    requires forall n :: i <= n < j ==> !Presents(run[n].request, kind, raw)
    ensures var now := Table(StateAt(c, s, run, j), kind);
            raw in now && now[raw] == Table(StateAt(c, s, run, i), kind)[raw]
    decreases j
  {
    hide Handle, Presents;
    if i < j {
      UnpresentedStays(c, s, run, kind, raw, i, j - 1);
      StaysUnspent(c, StateAt(c, s, run, j - 1), run[j - 1], kind, raw);
    }
  }

  // ---- round trips ----------------------------------------------------------------------

  /** The row a request issues belongs to the account of the address it names. */
  lemma IssuedTo(c: Settings, s: Tables, e: Event)
    ensures var (after, r) := Handle(c, s, e.at, e.request); var q := e.request;
            && (q.RequestReset? && r.ResetIssued? ==>
                  && Normalize(q.email) in s.accounts && q.minted in after.resets
                  && after.resets[q.minted].user == Normalize(q.email) && after.resets[q.minted].spent.None?
                  && after.resets[q.minted].expires == e.at + c.resetTtl * SECOND)
            && (q.SignUp? && r.SignedUp? ==>
                  && q.minted in after.verifications && after.verifications[q.minted].user == Normalize(q.email)
                  && after.verifications[q.minted].spent.None?
                  && after.verifications[q.minted].expires == e.at + c.verifyTtl * SECOND)
            && (q.SignIn? && r.SignedIn? ==>
                  && Normalize(q.email) in s.accounts && q.minted in after.refresh
                  && after.refresh[q.minted].user == Normalize(q.email) && after.refresh[q.minted].spent.None?
                  && after.refresh[q.minted].expires == e.at + c.refreshTtl * SECOND)
  {
    hide Normalize;
  }

  lemma ResetStep(c: Settings, s: Tables, e: Event)
    requires e.request.ResetPassword? && Usable(s.resets, e.request.presented, e.at)
    requires s.resets[e.request.presented].user in s.accounts
    ensures Handle(c, s, e.at, e.request).1 == Done && CompletesReset(c, s, e, s.resets[e.request.presented].user)
  {
  }

  /** Request `j` is the first to present the reset token that request `i` issued, and comes
      before it expires. */
  ghost predicate ResetsInTime(c: Settings, s: Tables, run: seq<Event>, i: nat, j: nat) {
    && i < j < |run|
    && run[i].request.RequestReset? && OutcomeAt(c, s, run, i) == ResetIssued
    && run[j].request.ResetPassword? && run[j].request.presented == run[i].request.minted
    && run[j].at < run[i].at + c.resetTtl * SECOND
    && forall n :: i < n < j ==> !Presents(run[n].request, ResetTokens, run[i].request.minted)
  }

  lemma ResetIssues(c: Settings, s: Tables, run: seq<Event>, i: nat)
    requires i < |run| && run[i].request.RequestReset? && OutcomeAt(c, s, run, i) == ResetIssued
    ensures var u, before := Normalize(run[i].request.email), StateAt(c, s, run, i);
            var tokens := Table(StateAt(c, s, run, i + 1), ResetTokens);
            && u in before.accounts && before.accounts[u].active
            && run[i].request.minted in tokens && tokens[run[i].request.minted].user == u
            && tokens[run[i].request.minted].spent.None?
            && tokens[run[i].request.minted].expires == run[i].at + c.resetTtl * SECOND
  {
    hide Normalize;
    StateAfter(c, s, run, i);
    ResetAnswers(c, StateAt(c, s, run, i), run[i]);
    IssuedTo(c, StateAt(c, s, run, i), run[i]);
  }

  /** A reset asked for by any spelling of an address, and presented for the first time
      before it expires, is done, whatever came between, and sets the password of the
      account with that address. */
  lemma ResetWorks(c: Settings, s: Tables, run: seq<Event>, i: nat, j: nat)
    requires ResetsInTime(c, s, run, i, j)
    ensures i < j < |run| && run[i].request.RequestReset? && run[j].request.ResetPassword?
    ensures var u := Normalize(run[i].request.email);
            && u in StateAt(c, s, run, i).accounts && StateAt(c, s, run, i).accounts[u].active
            && OutcomeAt(c, s, run, j) == Done && CompletesReset(c, StateAt(c, s, run, j), run[j], u)
            && u in StateAt(c, s, run, j + 1).accounts
            && StateAt(c, s, run, j + 1).accounts[u].password == run[j].request.password
  {
    var u, minted := Normalize(run[i].request.email), run[i].request.minted;
    var t := StateAt(c, s, run, j);
    hide Normalize, Handle, CompletesReset, StateAt, Presents;
    ResetIssues(c, s, run, i);
    AccountsStay(c, s, run, u, i, j);
    UnpresentedStays(c, s, run, ResetTokens, minted, i + 1, j);
    StateAfter(c, s, run, j);
    ResetStep(c, t, run[j]);
    StepPassword(c, t, run[j], u);
  }

  lemma {:induction false} PasswordStays(c: Settings, s: Tables, run: seq<Event>, u: Email, i: nat, k: nat)
    requires i <= k <= |run| && u in StateAt(c, s, run, i).accounts
    requires forall n :: i <= n < k ==> !CompletesReset(c, StateAt(c, s, run, n), run[n], u)
    ensures u in StateAt(c, s, run, k).accounts
    ensures StateAt(c, s, run, k).accounts[u].password == StateAt(c, s, run, i).accounts[u].password
    decreases k
  {
    hide Handle, CompletesReset, Normalize;
    if i < k {
      PasswordStays(c, s, run, u, i, k - 1);
      var t := StateAt(c, s, run, k - 1);
      StepPassword(c, t, run[k - 1], u);
      if run[k - 1].request.SignUp? { SignUpAnswers(c, t, run[k - 1]); }
    }
  }

  lemma KeptPasswordOpens(c: Settings, s: Tables, run: seq<Event>, u: Email, i: nat, k: nat)
    requires i <= k < |run| && u in StateAt(c, s, run, i).accounts
    requires forall n :: i <= n < k ==> !CompletesReset(c, StateAt(c, s, run, n), run[n], u)
    requires run[k].request.SignIn? && Normalize(run[k].request.email) == u
    requires Open(StateAt(c, s, run, k), u, run[k].at) && run[k].request.minted !in StateAt(c, s, run, k).refresh
    ensures OutcomeAt(c, s, run, k)
            == if run[k].request.password == StateAt(c, s, run, i).accounts[u].password then SignedIn
               else InvalidCredentials
  {
    hide Normalize, CompletesReset, StateAt, Handle, Open;
    PasswordStays(c, s, run, u, i, k);
    SignInAnswers(c, StateAt(c, s, run, k), run[k]);
  }

  /** From then on, until the next completed reset, the account is signed in to with exactly
      the new password, by any spelling of the address, whenever it is open. */
  lemma ResetThenSignIn(c: Settings, s: Tables, run: seq<Event>, i: nat, j: nat, k: nat)
    requires ResetsInTime(c, s, run, i, j) && j < k < |run|
    requires var u := Normalize(run[i].request.email);
             && (forall n :: j < n < k ==> !CompletesReset(c, StateAt(c, s, run, n), run[n], u))
             && run[k].request.SignIn? && Normalize(run[k].request.email) == u
             && Open(StateAt(c, s, run, k), u, run[k].at) && run[k].request.minted !in StateAt(c, s, run, k).refresh
    ensures OutcomeAt(c, s, run, k) == if run[k].request.password == run[j].request.password then SignedIn
                                       else InvalidCredentials
  {
    hide *;
    ResetWorks(c, s, run, i, j);
    KeptPasswordOpens(c, s, run, Normalize(run[i].request.email), j + 1, k);
  }

  /** A sign-up's password opens the account until a reset; and the address, in any spelling,
      cannot be signed up again. */
  lemma SignUpThenSignIn(c: Settings, s: Tables, run: seq<Event>, i: nat, k: nat)
    requires i < k < |run| && run[i].request.SignUp? && OutcomeAt(c, s, run, i) == SignedUp
    requires var u := Normalize(run[i].request.email);
             forall n :: i < n < k ==> !CompletesReset(c, StateAt(c, s, run, n), run[n], u)
    ensures var u, t, q := Normalize(run[i].request.email), StateAt(c, s, run, k), run[k].request;
            && (q.SignUp? && Normalize(q.email) == u ==> OutcomeAt(c, s, run, k) == AlreadyRegistered)
            && (q.SignIn? && Normalize(q.email) == u && Open(t, u, run[k].at) && q.minted !in t.refresh ==>
                  OutcomeAt(c, s, run, k)
                  == if q.password == run[i].request.password then SignedIn else InvalidCredentials)
  {
    hide Normalize, CompletesReset;
    var u := Normalize(run[i].request.email);
    SignUpAnswers(c, StateAt(c, s, run, i), run[i]);
    StepPassword(c, StateAt(c, s, run, i), run[i], u);
    StateAfter(c, s, run, i);
    hide StateAt, Handle;
    PasswordStays(c, s, run, u, i + 1, k);
    var t, q := StateAt(c, s, run, k), run[k].request;
    if q.SignUp? { SignUpAnswers(c, t, run[k]); }
    if q.SignIn? && Normalize(q.email) == u && Open(t, u, run[k].at) && q.minted !in t.refresh {
      KeptPasswordOpens(c, s, run, u, i + 1, k);
    }
  }

  /** A new account is open and not verified. */
  lemma NewAccountIsOpen(c: Settings, s: Tables, e: Event)
    requires e.request.SignUp? && Handle(c, s, e.at, e.request).1 == SignedUp
    ensures var u, after := Normalize(e.request.email), Handle(c, s, e.at, e.request).0;
            Open(after, u, e.at) && !after.accounts[u].verified && after.accounts[u].failed == 0
  {
    hide Normalize;
  }

  lemma VerifyStep(c: Settings, s: Tables, e: Event)
    requires e.request.VerifyEmail? && Usable(s.verifications, e.request.presented, e.at)
    requires s.verifications[e.request.presented].user in s.accounts
    ensures var u, (after, r) := s.verifications[e.request.presented].user, Handle(c, s, e.at, e.request);
            r == Done && u in after.accounts && after.accounts[u].verified
  {
  }

  lemma SignUpIssues(c: Settings, s: Tables, run: seq<Event>, i: nat)
    requires i < |run| && run[i].request.SignUp? && OutcomeAt(c, s, run, i) == SignedUp
    ensures var u, after := Normalize(run[i].request.email), StateAt(c, s, run, i + 1);
            var tokens := Table(after, VerificationTokens);
            && u in after.accounts && run[i].request.minted in tokens && tokens[run[i].request.minted].user == u
            && tokens[run[i].request.minted].spent.None?
            && tokens[run[i].request.minted].expires == run[i].at + c.verifyTtl * SECOND
  {
    hide Normalize;
    StateAfter(c, s, run, i);
    IssuedTo(c, StateAt(c, s, run, i), run[i]);
    StepPassword(c, StateAt(c, s, run, i), run[i], Normalize(run[i].request.email));
  }

  /** The token a sign-up issued, presented for the first time before it expires, verifies the
      account that was signed up, for good. */
  lemma VerificationWorks(c: Settings, s: Tables, run: seq<Event>, i: nat, j: nat, k: nat)
    requires i < j < k <= |run| && run[i].request.SignUp? && OutcomeAt(c, s, run, i) == SignedUp
    requires run[j].request.VerifyEmail? && run[j].request.presented == run[i].request.minted
    requires run[j].at < run[i].at + c.verifyTtl * SECOND
    requires forall n :: i < n < j ==> !Presents(run[n].request, VerificationTokens, run[i].request.minted)
    ensures var u := Normalize(run[i].request.email);
            && OutcomeAt(c, s, run, j) == Done
            && u in StateAt(c, s, run, k).accounts && StateAt(c, s, run, k).accounts[u].verified
  {
    var u, minted := Normalize(run[i].request.email), run[i].request.minted;
    hide Normalize, Handle, StateAt, Presents;
    SignUpIssues(c, s, run, i);
    AccountsStay(c, s, run, u, i + 1, j);
    UnpresentedStays(c, s, run, VerificationTokens, minted, i + 1, j);
    StateAfter(c, s, run, j);
    VerifyStep(c, StateAt(c, s, run, j), run[j]);
    AccountsStay(c, s, run, u, j + 1, k);
  }

  /** None of the requests `i` to `j - 1` ends the session of `raw`. */
  ghost predicate Undisturbed(c: Settings, s: Tables, run: seq<Event>, raw: Raw, i: nat, j: nat)
    requires j <= |run|
  {
    forall n :: i <= n < j ==> LeavesSession(StateAt(c, s, run, n), run[n], raw)
  }

  ghost predicate LeavesSession(s: Tables, e: Event, raw: Raw) {
    raw in s.refresh ==> !EndsSession(s, e, raw)
  }

  lemma {:induction false} SessionStays(c: Settings, s: Tables, run: seq<Event>, raw: Raw, i: nat, j: nat)
    requires i <= j <= |run| && raw in StateAt(c, s, run, i).refresh
    requires StateAt(c, s, run, i).refresh[raw].spent.None? && Undisturbed(c, s, run, raw, i, j)
    ensures var now := StateAt(c, s, run, j).refresh; raw in now && now[raw] == StateAt(c, s, run, i).refresh[raw]
    decreases j
  {
    hide Handle, LeavesSession;
    if i < j {
      SessionStays(c, s, run, raw, i, j - 1);
      SessionStep(c, StateAt(c, s, run, j - 1), run[j - 1], raw);
    }
  }

  lemma SessionStep(c: Settings, s: Tables, e: Event, raw: Raw)
    requires raw in s.refresh && s.refresh[raw].spent.None? && LeavesSession(s, e, raw)
    ensures var after := Handle(c, s, e.at, e.request).0.refresh; raw in after && after[raw] == s.refresh[raw]
  {
    hide Handle, EndsSession;
    SessionEndsExactlyWhen(c, s, e, raw);
    RefreshTokensKept(c, s, e);
  }

  lemma RefreshStep(c: Settings, s: Tables, e: Event)
    requires e.request.Refresh? && Usable(s.refresh, e.request.presented, e.at) && e.request.minted !in s.refresh
    requires var u := s.refresh[e.request.presented].user; u in s.accounts && s.accounts[u].active
    ensures var (after, r) := Handle(c, s, e.at, e.request);
            && r == Refreshed && e.request.minted in after.refresh
            && var t := after.refresh[e.request.minted];
               && t.user == s.refresh[e.request.presented].user && t.spent.None?
               && t.expires == e.at + c.refreshTtl * SECOND
  {
  }

  lemma SignInIssues(c: Settings, s: Tables, run: seq<Event>, i: nat)
    requires i < |run| && run[i].request.SignIn? && OutcomeAt(c, s, run, i) == SignedIn
    ensures var u, tokens := Normalize(run[i].request.email), StateAt(c, s, run, i + 1).refresh;
            && u in StateAt(c, s, run, i).accounts
            && run[i].request.minted in tokens && tokens[run[i].request.minted].user == u
            && tokens[run[i].request.minted].spent.None?
            && tokens[run[i].request.minted].expires == run[i].at + c.refreshTtl * SECOND
  {
    hide Normalize;
    StateAfter(c, s, run, i);
    IssuedTo(c, StateAt(c, s, run, i), run[i]);
  }

  lemma SessionLives(c: Settings, s: Tables, run: seq<Event>, i: nat, j: nat)
    requires i < j <= |run| && run[i].request.SignIn? && OutcomeAt(c, s, run, i) == SignedIn
    requires Undisturbed(c, s, run, run[i].request.minted, i + 1, j)
    ensures var u, t := Normalize(run[i].request.email), StateAt(c, s, run, j);
            && u in t.accounts && run[i].request.minted in t.refresh
            && t.refresh[run[i].request.minted].user == u && t.refresh[run[i].request.minted].spent.None?
            && t.refresh[run[i].request.minted].expires == run[i].at + c.refreshTtl * SECOND
  {
    hide Normalize, Handle, StateAt, Undisturbed, OutcomeAt;
    SignInIssues(c, s, run, i);
    AccountsStay(c, s, run, Normalize(run[i].request.email), i, j);
    SessionStays(c, s, run, run[i].request.minted, i + 1, j);
  }

  /** The token a sign-in issued is refreshed, while its account is active, at any time before
      it expires and before a request that ends its session; and the successor is a token of
      the same account, good for a whole lifetime. */
  lemma SessionWorks(c: Settings, s: Tables, run: seq<Event>, i: nat, j: nat)
    requires i < j < |run| && run[i].request.SignIn? && OutcomeAt(c, s, run, i) == SignedIn
    requires Undisturbed(c, s, run, run[i].request.minted, i + 1, j)
    requires run[j].request.Refresh? && run[j].request.presented == run[i].request.minted
    requires run[j].at < run[i].at + c.refreshTtl * SECOND
    requires run[j].request.minted !in StateAt(c, s, run, j).refresh
    requires var u, t := Normalize(run[i].request.email), StateAt(c, s, run, j);
             u in t.accounts ==> t.accounts[u].active
    ensures OutcomeAt(c, s, run, j) == Refreshed
    ensures var u, tokens := Normalize(run[i].request.email), StateAt(c, s, run, j + 1).refresh;
            var next := run[j].request.minted;
            && next in tokens && tokens[next].user == u && tokens[next].spent.None?
            && tokens[next].expires == run[j].at + c.refreshTtl * SECOND
  {
    SessionLives(c, s, run, i, j);
    StateAfter(c, s, run, j);
    var t := StateAt(c, s, run, j);
    hide Normalize, Handle, StateAt, Undisturbed;
    assert Usable(t.refresh, run[j].request.presented, run[j].at);
    RefreshStep(c, t, run[j]);
  }
}
