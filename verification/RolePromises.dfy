/** What granting and revoking do, in terms of who holds what, and who holds a role after any
    run: exactly those the last request about it gave it to. */
module RolePromises {
  import opened Options
  import opened RoleDomain
  import opened RoleService

  /** No holding but `h` differs. */
  ghost predicate OnlyHolding(before: Tables, after: Tables, h: (UserId, RoleId)) {
    forall g :: g != h ==>
      (g in after.held <==> g in before.held) && (g in before.held ==> after.held[g] == before.held[g])
  }

  /** No user but `u` differs, and no role. */
  ghost predicate OnlyUser(before: Tables, after: Tables, u: UserId) {
    && after.roles == before.roles
    && forall v :: v != u ==>
         (v in after.users <==> v in before.users) && (v in before.users ==> after.users[v] == before.users[v])
  }

  /** Assigning a role that exists to a user who exists leaves the user holding it: since now
      if new, and since when it was if not. It becomes primary exactly if that is asked, and
      nothing else changes. */
  lemma AssignGrants(db: Tables, e: Event) returns (r: RoleId)
    requires e.request.Assign?
    ensures var (after, answer) := Handle(db, e); var u, name := e.request.user, e.request.name;
            && (answer.NoUser? <==> u !in db.users)
            && (answer.RoleNotFound? <==> u in db.users && forall q :: q in db.roles ==> db.roles[q] != name)
            && (answer.Done? || (after == db && answer != LastRoleRemoval))
            && (answer.Done? ==>
                  && r in db.roles && db.roles[r] == name && (u, r) in after.held
                  && after.held[(u, r)] == (if (u, r) in db.held then db.held[(u, r)] else Holding(Dropped, e.at))
                  && OnlyHolding(db, after, (u, r)) && OnlyUser(db, after, u)
                  && u in after.users && after.users[u].role == db.users[u].role
                  && after.users[u].primary == if e.request.isPrimary then Cell(r) else db.users[u].primary)
  {
    r := if Named(db.roles, e.request.name) then RoleCalled(db.roles, e.request.name) else 0;
  }

  /** Revoking a role ends with the user not holding it, unless it is the only one, which is
      refused. Exactly that holding goes; if it was primary, one held longest among the rest
      becomes primary. */
  lemma RevokeRemoves(db: Tables, e: Event) returns (r: RoleId)
    requires e.request.Revoke? && RolesAgree(db) && Possible(db, e)
    ensures var (after, answer) := Handle(db, e); var u, name := e.request.user, e.request.name;
            && (answer.NoUser? <==> u !in db.users)
            && (answer.RoleNotFound? <==> u in db.users && forall q :: q in db.roles ==> db.roles[q] != name)
            && (answer.Done? || after == db)
            && (answer.Done? || answer.LastRoleRemoval? ==> r in db.roles && db.roles[r] == name)
            && (answer.LastRoleRemoval? ==> (u, r) in db.held && forall q :: q != r ==> (u, q) !in db.held)
            && (answer.Done? ==> u in db.users && Gone(db, after, u, r))
  {
    var u, name := e.request.user, e.request.name;
    r := if Named(db.roles, name) then RoleCalled(db.roles, name) else 0;
    if u in db.users && Named(db.roles, name) {
      Held(db.held, u);
      RevokeCases(db, e, r);
      hide Possible, Handle, RolesAgree, Removed, LongestHeld, RolesOf, Gone;
      if Handle(db, e).1.LastRoleRemoval? {
        OnlyRole(db, u, r);
      } else if (u, r) in db.held {
        RemovedIsGone(db, u, r, e.request.promoted);
      } else {
        NothingGone(db, u, r);
      }
    }
  }

  /** `u` does not hold `r`, and that is all that differs, but for the primary role where it
      was `r`: it is then one that `u` holds longest. */
  ghost predicate Gone(db: Tables, after: Tables, u: UserId, r: RoleId)
    requires u in db.users
  {
    && (u, r) !in after.held && OnlyHolding(db, after, (u, r)) && OnlyUser(db, after, u)
    && u in after.users && after.users[u].role == db.users[u].role
    && if (u, r) in db.held && db.users[u].primary == Cell(r)
       then after.users[u].primary.Cell? && HeldLongest(after, u, after.users[u].primary.value)
       else after.users[u].primary == db.users[u].primary
  }

  ghost predicate HeldLongest(db: Tables, u: UserId, p: RoleId) {
    (u, p) in db.held
    && forall q :: (u, q) in db.held ==> db.held[(u, p)].assignedAt <= db.held[(u, q)].assignedAt
  }

  lemma NothingGone(db: Tables, u: UserId, r: RoleId)
    requires u in db.users && (u, r) !in db.held
    ensures Gone(db, db, u, r)
  {
  }

  lemma RemovedIsGone(db: Tables, u: UserId, r: RoleId, promoted: RoleId)
    requires u in db.users && (u, r) in db.held
    requires db.users[u].primary == Cell(r) ==> LongestHeld(db.held, u, RolesOf(db.held, u) - {r}, promoted)
    ensures Gone(db, Removed(db, u, r, promoted), u, r)
  {
    Held(db.held, u);
  }

  lemma RevokeCases(db: Tables, e: Event, r: RoleId)
    requires e.request.Revoke? && RolesAgree(db) && Possible(db, e)
    requires e.request.user in db.users && Named(db.roles, e.request.name)
    requires r == RoleCalled(db.roles, e.request.name)
    ensures var (after, answer) := Handle(db, e); var u := e.request.user;
            && (answer.Done? || answer.LastRoleRemoval?) && (answer.LastRoleRemoval? ==> after == db)
            && (answer.LastRoleRemoval? ==> (u, r) in db.held && |RolesOf(db.held, u)| == 1)
            && (answer.Done? && (u, r) !in db.held ==> after == db)
            && (answer.Done? && (u, r) in db.held ==>
                  && after == Removed(db, u, r, e.request.promoted)
                  && (db.users[u].primary == Cell(r) ==>
                        LongestHeld(db.held, u, RolesOf(db.held, u) - {r}, e.request.promoted)))
  {
    Held(db.held, e.request.user);
    hide RolesOf, LongestHeld, RolesAgree;
    if (e.request.user, r) in db.held {
      assert (e.request.user, r) !in Removed(db, e.request.user, r, e.request.promoted).held;
    }
  }

  lemma Held(held: map<(UserId, RoleId), Holding>, u: UserId)
    ensures forall q :: q in RolesOf(held, u) <==> (u, q) in held
  {
    forall q | (u, q) in held ensures q in RolesOf(held, u) {
      var h := (u, q);
      assert h in held && h.0 == u;
    }
  }

  lemma OnlyRole(db: Tables, u: UserId, r: RoleId)
    requires (u, r) in db.held && |RolesOf(db.held, u)| == 1
    ensures forall q :: q != r ==> (u, q) !in db.held
  {
    Held(db.held, u);
    var mine := RolesOf(db.held, u);
    assert |mine - {r}| == 0;
    assert mine == {r};
  }

  /** A new account holds Buyer since now, as its primary role and its only one, and nothing
      else changes. */
  lemma SignUpWelcomes(db: Tables, e: Event) returns (r: RoleId)
    requires e.request.SignUp? && RolesAgree(db) && e.request.user !in db.users
    ensures var (after, answer) := Handle(db, e); var u := e.request.user;
            && (answer.Done? <==> exists q :: q in db.roles && db.roles[q] == "Buyer")
            && (answer.Done? || (answer.RoleNotFound? && after == db))
            && (answer.Done? ==>
                  && r in db.roles && db.roles[r] == "Buyer"
                  && u in after.users && after.users[u] == User(Dropped, Cell(r))
                  && (forall q :: (u, q) in after.held <==> q == r) && after.held[(u, r)] == Holding(Dropped, e.at)
                  && OnlyHolding(db, after, (u, r)) && OnlyUser(db, after, u))
  {
    r := if Named(db.roles, BUYER) then RoleCalled(db.roles, BUYER) else 0;
    assert forall q :: (e.request.user, q) !in db.held;
  }

  // ---- runs -------------------------------------------------------------------------------

  /** The request gives `u` the role `r`. */
  ghost predicate Gives(db: Tables, e: Event, u: UserId, r: RoleId) {
    && Handle(db, e).1.Done? && e.request.user == u && r in db.roles
    && match e.request
       case SignUp(_) => db.roles[r] == "Buyer"
       case Assign(_, name, _) => db.roles[r] == name
       case Revoke(_, _, _) => false
  }

  ghost predicate Takes(db: Tables, e: Event, u: UserId, r: RoleId) {
    && Handle(db, e).1.Done? && e.request.user == u && r in db.roles
    && e.request.Revoke? && db.roles[r] == e.request.name
  }

  /** What the last request about `u` and `r` among the first `k` did, if any; else what was. */
  ghost predicate LastGiven(db: Tables, run: seq<Event>, u: UserId, r: RoleId, k: nat)
    requires k <= |run|
  {
    if k == 0 then (u, r) in db.held
    else if Gives(StateAt(db, run, k - 1), run[k - 1], u, r) then true
    else if Takes(StateAt(db, run, k - 1), run[k - 1], u, r) then false
    else LastGiven(db, run, u, r, k - 1)
  }

  lemma StepHolds(db: Tables, e: Event, u: UserId, r: RoleId)
    requires RolesAgree(db) && Possible(db, e) && r in db.roles
    ensures (u, r) in Handle(db, e).0.held
            <==> Gives(db, e, u, r) || ((u, r) in db.held && !Takes(db, e, u, r))
  {
    assert NamesUnique(db.roles);
    hide RolesAgree, Possible, Handle;
    match e.request
    case SignUp(v) => StepWelcomes(db, e, u, r);
    case Assign(_, _, _) => var q := AssignGrants(db, e);
    case Revoke(_, _, _) => var q := RevokeRemoves(db, e);
  }

  lemma StepWelcomes(db: Tables, e: Event, u: UserId, r: RoleId)
    requires RolesAgree(db) && Possible(db, e) && r in db.roles && e.request.SignUp?
    ensures (u, r) in Handle(db, e).0.held
            <==> Gives(db, e, u, r) || ((u, r) in db.held && !Takes(db, e, u, r))
  {
    var q := SignUpWelcomes(db, e);
    assert NamesUnique(db.roles);
  }

  lemma FeasibleAt(db: Tables, run: seq<Event>, k: nat)
    requires Feasible(db, run) && k < |run|
    ensures Possible(StateAt(db, run, k), run[k])
  {
  }

  /** In every run a user holds a role exactly if the last request that was about the two and
      was not refused gave it, or there was none and it was held before. */
  lemma {:induction false} HoldsExactlyWhen(db: Tables, run: seq<Event>, u: UserId, r: RoleId, k: nat)
    requires RolesAgree(db) && Feasible(db, run) && k <= |run| && r in db.roles
    ensures (u, r) in StateAt(db, run, k).held <==> LastGiven(db, run, u, r, k)
  {
    hide RolesAgree, Possible, Handle, Gives, Takes, Feasible;
    if k > 0 {
      FeasibleAt(db, run, k - 1);
      HoldsExactlyWhen(db, run, u, r, k - 1);
      RunKeepsRoles(db, run, k - 1);
      RunKeepsRoleNames(db, run, k - 1);
      StepHolds(StateAt(db, run, k - 1), run[k - 1], u, r);
    }
  }
}
