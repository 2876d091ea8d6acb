/** The service: each method reads and updates the tables as one transaction and raises by
    returning an outcome. An error before the commit undoes the whole request. */
module AuthService {
  import opened Options
  import opened AuthDomain

  class Service {
    const settings: Settings
    var accounts: map<Email, Account>
    var refreshTokens: map<Raw, Token>
    var resetTokens: map<Raw, Token>
    var verificationTokens: map<Raw, Token>

    ghost function Contents(): Tables
      reads this
    {
      Tables(accounts, refreshTokens, resetTokens, verificationTokens)
    }

    constructor (settings: Settings)
      ensures this.settings == settings && Contents() == Tables(map[], map[], map[], map[])
    {
      this.settings := settings;
      accounts, refreshTokens, resetTokens, verificationTokens := map[], map[], map[], map[];
    }

    method SignUp(email: string, password: Secret, minted: Raw, now: Time) returns (r: Outcome)
      modifies this
      ensures (Contents(), r) == Handle(settings, old(Contents()), now, Request.SignUp(email, password, minted))
    {
      var normalized := Normalize(email);
      if normalized in accounts { return AlreadyRegistered; }
      var rollback := accounts;
      accounts := accounts[normalized := Account(password, true, false, 0, None)];
      if minted in verificationTokens {
        accounts := rollback;
        return Fault;
      }
      var token := Token(normalized, now + settings.verifyTtl * SECOND, None, minted);
      verificationTokens := verificationTokens[minted := token];
      r := SignedUp;
    }

    /** `_register_failed_login`: one more failure, and the lock with the last of them. */
    method RegisterFailedLogin(user: Email, now: Time)
      requires user in accounts
      modifies this`accounts
      ensures accounts == old(accounts)[user := AfterFailure(settings, old(accounts)[user], now)]
    {
      accounts := accounts[user := accounts[user].(failed := accounts[user].failed + 1)];
      if accounts[user].failed >= settings.maxFailed {
        accounts := accounts[user := accounts[user].(lockedUntil := Some(now + settings.lockout * SECOND))];
        accounts := accounts[user := accounts[user].(failed := 0)];
      }
    }

    /** `_issue_token_pair`, down to the row it adds. */
    method IssueToken(user: Email, minted: Raw, root: Raw, now: Time) returns (added: bool)
      modifies this`refreshTokens
      ensures added == (minted !in old(refreshTokens))
      ensures var token := Token(user, now + settings.refreshTtl * SECOND, None, root);
              refreshTokens == if added then old(refreshTokens)[minted := token] else old(refreshTokens)
    {
      added := minted !in refreshTokens;
      if added {
        refreshTokens := refreshTokens[minted := Token(user, now + settings.refreshTtl * SECOND, None, root)];
      }
    }

    method SignIn(email: string, password: Secret, minted: Raw, now: Time) returns (r: Outcome)
      modifies this
      ensures (Contents(), r) == Handle(settings, old(Contents()), now, Request.SignIn(email, password, minted))
    {
      var user := Normalize(email);
      if user !in accounts { return InvalidCredentials; }
      var account := accounts[user];
      if account.lockedUntil.Some? && account.lockedUntil.value > now {
        var seconds := (account.lockedUntil.value - now) / SECOND;
        return Locked(if seconds < 1 then 1 else seconds);
      }
      if !account.active { return Inactive; }
      if password != account.password {
        RegisterFailedLogin(user, now);
        return InvalidCredentials;
      }
      var rollback := accounts;
      accounts := accounts[user := account.(failed := 0, lockedUntil := None)];
      var added := IssueToken(user, minted, minted, now);
      if !added {
        accounts := rollback;
        return Fault;
      }
      r := SignedIn;
    }

    /** `_get_active_refresh_token`. */
    method ActiveRefreshToken(presented: Raw, now: Time) returns (row: Option<Token>)
      ensures row == if Usable(refreshTokens, presented, now) then Some(refreshTokens[presented]) else None
    {
      if presented !in refreshTokens { return None; }
      var found := refreshTokens[presented];
      if found.spent.Some? || found.expires <= now { return None; }
      row := Some(found);
    }

    method Refresh(presented: Raw, minted: Raw, now: Time) returns (r: Outcome)
      modifies this
      ensures (Contents(), r) == Handle(settings, old(Contents()), now, Request.Refresh(presented, minted))
    {
      var row := ActiveRefreshToken(presented, now);
      if row.None? { return InvalidToken; }
      var user := row.value.user;
      if user !in accounts || !accounts[user].active { return InvalidToken; }
      var rollback := refreshTokens;
      refreshTokens := refreshTokens[presented := row.value.(spent := Some(now))];
      var added := IssueToken(user, minted, row.value.root, now);
      if !added {
        refreshTokens := rollback;
        return Fault;
      }
      r := Refreshed;
    }

    method SignOut(presented: Raw, now: Time) returns (r: Outcome)
      modifies this
      ensures (Contents(), r) == Handle(settings, old(Contents()), now, Request.SignOut(presented))
    {
      var row := ActiveRefreshToken(presented, now);
      if row.Some? {
        refreshTokens := refreshTokens[presented := row.value.(spent := Some(now))];
      }
      r := Done;
    }

    method RequestPasswordReset(email: string, minted: Raw, now: Time) returns (r: Outcome)
      modifies this
      ensures (Contents(), r) == Handle(settings, old(Contents()), now, RequestReset(email, minted))
      ensures r.ResetIssued? ==>
                && Normalize(email) in accounts && accounts[Normalize(email)].active
                && resetTokens == old(resetTokens)[minted := Token(Normalize(email), now + settings.resetTtl * SECOND,
                                                                   None, minted)]
    {
      var user := Normalize(email);
      if user !in accounts || !accounts[user].active { return NoAccount; }
      if minted in resetTokens { return Fault; }
      resetTokens := resetTokens[minted := Token(user, now + settings.resetTtl * SECOND, None, minted)];
      r := ResetIssued;
    }

    /** `_revoke_all_refresh_tokens`: one bulk update. */
    method RevokeAllRefreshTokens(user: Email, now: Time)
      modifies this`refreshTokens
      ensures refreshTokens == RevokeAll(old(refreshTokens), user, now)
    {
      var todo := refreshTokens.Keys;
      while todo != {}
        invariant todo <= old(refreshTokens).Keys && refreshTokens.Keys == old(refreshTokens).Keys
        invariant forall t :: t in todo ==> refreshTokens[t] == old(refreshTokens)[t]
        invariant forall t :: t in refreshTokens && t !in todo
                    ==> refreshTokens[t] == RevokeAll(old(refreshTokens), user, now)[t]
      {
        var t :| t in todo;
        if refreshTokens[t].user == user && refreshTokens[t].spent.None? {
          refreshTokens := refreshTokens[t := refreshTokens[t].(spent := Some(now))];
        }
        todo := todo - {t};
      }
    }

    method ResetPassword(presented: Raw, password: Secret, now: Time) returns (r: Outcome)
      modifies this
      ensures (Contents(), r) == Handle(settings, old(Contents()), now, Request.ResetPassword(presented, password))
    {
      if presented !in resetTokens { return InvalidToken; }
      var row := resetTokens[presented];
      if row.spent.Some? || row.expires <= now || row.user !in accounts { return InvalidToken; }
      accounts := accounts[row.user := accounts[row.user].(password := password)];
      resetTokens := resetTokens[presented := row.(spent := Some(now))];
      RevokeAllRefreshTokens(row.user, now);
      r := Done;
    }

    method VerifyEmail(presented: Raw, now: Time) returns (r: Outcome)
      modifies this
      ensures (Contents(), r) == Handle(settings, old(Contents()), now, Request.VerifyEmail(presented))
    {
      if presented !in verificationTokens { return InvalidToken; }
      var row := verificationTokens[presented];
      if row.spent.Some? || row.expires <= now || row.user !in accounts { return InvalidToken; }
      accounts := accounts[row.user := accounts[row.user].(verified := true)];
      verificationTokens := verificationTokens[presented := row.(spent := Some(now))];
      r := Done;
    }
  }
}
