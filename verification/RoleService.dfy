/** Assigning and revoking roles, on the schema 0030 leaves. */
module RoleService {
  import opened Options
  import opened RoleDomain
  import opened RoleMigrations

  datatype Outcome = Done | RoleNotFound | LastRoleRemoval | NoUser

  /** `promoted` is the role the database happens to list first among the longest held. */
  datatype Request =
    | SignUp(user: UserId)
    | Assign(user: UserId, name: Name, isPrimary: bool)
    | Revoke(user: UserId, name: Name, promoted: RoleId)

  datatype Event = Event(at: int, request: Request)

  // ---- what each request does -----------------------------------------------------

  ghost predicate Named(roles: map<RoleId, Name>, name: Name) {
    exists r :: r in roles && roles[r] == name
  }

  ghost function RoleCalled(roles: map<RoleId, Name>, name: Name): (r: RoleId)
    requires Named(roles, name)
    ensures r in roles && roles[r] == name
  {
    var r :| r in roles && roles[r] == name; r
  }

  function RolesOf(held: map<(UserId, RoleId), Holding>, u: UserId): set<RoleId> {
    set h | h in held && h.0 == u :: h.1
  }

  /** One of `among` that `u` has held as long as any. */
  ghost predicate LongestHeld(held: map<(UserId, RoleId), Holding>, u: UserId, among: set<RoleId>, r: RoleId) {
    && r in among && (u, r) in held
    && forall q :: q in among && (u, q) in held ==> held[(u, r)].assignedAt <= held[(u, q)].assignedAt
  }

  function Granted(db: Tables, u: UserId, r: RoleId, isPrimary: bool, now: int): Tables
    requires u in db.users
  {
    Tables(db.roles,
           if isPrimary then db.users[u := db.users[u].(primary := Cell(r))] else db.users,
           if (u, r) in db.held then db.held else db.held[(u, r) := Holding(Dropped, now)])
  }

  function Removed(db: Tables, u: UserId, r: RoleId, promoted: RoleId): Tables
    requires u in db.users
  {
    Tables(db.roles,
           if db.users[u].primary == Cell(r) then db.users[u := db.users[u].(primary := Cell(promoted))] else db.users,
           db.held - {(u, r)})
  }

  ghost function Handle(db: Tables, e: Event): (Tables, Outcome) {
    match e.request
    case SignUp(u) =>
      if !Named(db.roles, BUYER) then (db, RoleNotFound)
      else
        var r := RoleCalled(db.roles, BUYER);
        (Granted(db.(users := db.users[u := User(Dropped, Cell(r))]), u, r, true, e.at), Done)
    case Assign(u, name, isPrimary) =>
      if u !in db.users then (db, NoUser)
      else if !Named(db.roles, name) then (db, RoleNotFound)
      else (Granted(db, u, RoleCalled(db.roles, name), isPrimary, e.at), Done)
    case Revoke(u, name, promoted) =>
      if u !in db.users then (db, NoUser)
      else if !Named(db.roles, name) then (db, RoleNotFound)
      else
        var r := RoleCalled(db.roles, name);
        if r !in RolesOf(db.held, u) then (db, Done)
        else if |RolesOf(db.held, u)| == 1 then (db, LastRoleRemoval)
        else (Removed(db, u, r, promoted), Done)
  }

  /** A new account has a new id, and the promoted role is a longest-held one. */
  ghost predicate Possible(db: Tables, e: Event) {
    match e.request
    case SignUp(u) => u !in db.users
    case Assign(_, _, _) => true
    case Revoke(u, name, promoted) =>
      u in db.users && Named(db.roles, name) && Handle(db, e).0 != db
         && db.users[u].primary == Cell(RoleCalled(db.roles, name))
      ==> LongestHeld(db.held, u, RolesOf(db.held, u) - {RoleCalled(db.roles, name)}, promoted)
  }

  // ---- runs -----------------------------------------------------------------------

  ghost function StateAt(db: Tables, run: seq<Event>, k: nat): Tables
    requires k <= |run|
  {
    if k == 0 then db else Handle(StateAt(db, run, k - 1), run[k - 1]).0
  }

  ghost predicate Feasible(db: Tables, run: seq<Event>) {
    forall k: nat :: k < |run| ==> Possible(StateAt(db, run, k), run[k])
  }

  lemma GrantKeeps(db: Tables, u: UserId, r: RoleId, isPrimary: bool, now: int)
    requires RolesAgree(db) && u in db.users && r in db.roles
    ensures RolesAgree(Granted(db, u, r, isPrimary, now))
  {
    hide NamesUnique;
  }

  lemma PromotedIsHeld(db: Tables, u: UserId, r: RoleId, promoted: RoleId)
    ensures LongestHeld(db.held, u, RolesOf(db.held, u) - {r}, promoted) ==> promoted != r && (u, promoted) in db.held
  {
  }

  lemma RemoveKeeps(db: Tables, u: UserId, r: RoleId, promoted: RoleId)
    requires RolesAgree(db) && u in db.users
    requires db.users[u].primary == Cell(r) ==> promoted != r && (u, promoted) in db.held
    ensures RolesAgree(Removed(db, u, r, promoted))
  {
  }

  lemma WelcomeKeeps(db: Tables, u: UserId, r: RoleId, now: int)
    requires RolesAgree(db) && u !in db.users && r in db.roles
    ensures RolesAgree(Granted(db.(users := db.users[u := User(Dropped, Cell(r))]), u, r, true, now))
  {
  }

  lemma StepKeeps(db: Tables, e: Event)
    requires RolesAgree(db) && Possible(db, e)
    ensures RolesAgree(Handle(db, e).0)
  {
    hide RolesAgree;
    match e.request
    case SignUp(u) =>
      if Named(db.roles, BUYER) { WelcomeKeeps(db, u, RoleCalled(db.roles, BUYER), e.at); }
    case Assign(u, name, isPrimary) =>
      if u in db.users && Named(db.roles, name) { GrantKeeps(db, u, RoleCalled(db.roles, name), isPrimary, e.at); }
    case Revoke(u, name, promoted) =>
      if Handle(db, e).0 != db { RemoveKeeps(db, u, RoleCalled(db.roles, name), promoted); }
  }

  /** From any state that satisfies the invariant, every run of sign-ups, assignments and
      revocations keeps it: each user holds at least one role, the primary one among them. */
  lemma {:induction false} RunKeepsRoles(db: Tables, run: seq<Event>, k: nat)
    requires RolesAgree(db) && Feasible(db, run) && k <= |run|
    ensures RolesAgree(StateAt(db, run, k))
    ensures forall u :: u in StateAt(db, run, k).users ==> RolesOf(StateAt(db, run, k).held, u) != {}
  {
    hide Handle, Possible;
    if k > 0 {
      RunKeepsRoles(db, run, k - 1);
      StepKeeps(StateAt(db, run, k - 1), run[k - 1]);
    }
    HoldsSomething(StateAt(db, run, k));
  }

  lemma HoldsSomething(db: Tables)
    requires RolesAgree(db)
    ensures forall u :: u in db.users ==> RolesOf(db.held, u) != {}
  {
    forall u | u in db.users ensures RolesOf(db.held, u) != {} {
      assert db.users[u].primary.value in RolesOf(db.held, u);
    }
  }

  /** From the legacy table through both migrations and any run of the service. */
  lemma {:induction false} RolesAgreeForever(legacy: Tables, ids: map<Name, RoleId>, now: int, db: Tables,
                                             run: seq<Event>, k: nat)
    requires Legacy(legacy) && Draws(ids, legacy.users) && Upgraded(Backfill(legacy, ids, now), db)
    requires Feasible(db, run) && k <= |run|
    ensures RolesAgree(StateAt(db, run, k))
  {
    hide *;
    MigrationsEstablishRoles(legacy, ids, now, db);
    RunKeepsRoles(db, run, k);
  }

  lemma {:induction false} RunKeepsRoleNames(db: Tables, run: seq<Event>, k: nat)
    requires k <= |run|
    ensures StateAt(db, run, k).roles == db.roles
  {
    hide Named;
    if k > 0 { RunKeepsRoleNames(db, run, k - 1); }
  }

  lemma SeedsFit(n: Name)
    requires n in Seeds()
    ensures |n| <= ROLE_WIDTH
  {
  }

  lemma BackfilledNamesFit(legacy: Tables, ids: map<Name, RoleId>, now: int, r: RoleId)
    requires Legacy(legacy) && Draws(ids, legacy.users) && r in Backfill(legacy, ids, now).roles
    ensures |Backfill(legacy, ids, now).roles[r]| <= ROLE_WIDTH
  {
    hide Seeds, Holdings;
    var n := Backfill(legacy, ids, now).roles[r];
    if n in Seeds() { SeedsFit(n); }
  }

  /** After any run the 0030 downgrade succeeds, and leaves exactly one primary row per user,
      with its name as the user's role string. */
  lemma {:induction false} DowngradeAfterAnyRun(legacy: Tables, ids: map<Name, RoleId>, now: int, db: Tables,
                                                run: seq<Event>, k: nat, down: Tables)
    requires Legacy(legacy) && Draws(ids, legacy.users) && Upgraded(Backfill(legacy, ids, now), db)
    requires Feasible(db, run) && k <= |run|
    ensures Downgradable(StateAt(db, run, k))
    ensures Downgraded(StateAt(db, run, k), down) ==> OnePrimary(down) && PrimaryNamed(down)
  {
    var s := StateAt(db, run, k);
    RolesAgreeForever(legacy, ids, now, db, run, k);
    RunKeepsRoleNames(db, run, k);
    assert db.roles == Backfill(legacy, ids, now).roles;
    hide Backfill, Draws, Legacy, Upgraded, StateAt, Feasible, PrimaryRow, OnePrimary, PrimaryNamed, Upgradable,
      Downgraded;
    forall u | u in s.users
      ensures s.users[u].primary.value in s.roles && |s.roles[s.users[u].primary.value]| <= ROLE_WIDTH
    {
      assert (u, s.users[u].primary.value) in s.held;
      BackfilledNamesFit(legacy, ids, now, s.users[u].primary.value);
    }
    if Downgraded(s, down) { DowngradeThenUpgrade(s, down, s); }
  }

  /** A refused revocation is exactly one of a user's only role. */
  lemma OnlyTheLastRoleIsRefused(db: Tables, e: Event)
    requires RolesAgree(db) && e.request.Revoke? && e.request.user in db.users && Named(db.roles, e.request.name)
    ensures Handle(db, e).1 == LastRoleRemoval
            <==> RolesOf(db.held, e.request.user) == {RoleCalled(db.roles, e.request.name)}
  {
    var r := RoleCalled(db.roles, e.request.name);
    var mine := RolesOf(db.held, e.request.user);
    if r in mine && |mine| == 1 {
      assert |mine - {r}| == 0;
      assert mine == {r};
    }
  }

  /** Revoking the role just granted undoes an assignment that was new: always when it was
      not made primary, and otherwise exactly when the role promoted is the old primary,
      which must then be one the user has held longest. */
  lemma RevokeUndoesAssign(db: Tables, u: UserId, r: RoleId, isPrimary: bool, now: int, promoted: RoleId)
    requires RolesAgree(db) && u in db.users && r in db.roles && (u, r) !in db.held
    requires var mid := Granted(db, u, r, isPrimary, now);
             isPrimary ==> LongestHeld(mid.held, u, RolesOf(mid.held, u) - {r}, promoted)
    ensures Removed(Granted(db, u, r, isPrimary, now), u, r, promoted) == db
            <==> !isPrimary || db.users[u].primary == Cell(promoted)
    ensures isPrimary && Removed(Granted(db, u, r, isPrimary, now), u, r, promoted) == db
            ==> LongestHeld(db.held, u, RolesOf(db.held, u), db.users[u].primary.value)
  {
    var mid := Granted(db, u, r, isPrimary, now);
    assert (u, db.users[u].primary.value) in db.held && db.users[u].primary.Cell?;
    hide RolesAgree, LongestHeld, RolesOf;
    assert mid.held - {(u, r)} == db.held;
    if isPrimary {
      assert mid.users[u := db.users[u]] == db.users;
      LongestWithout(db.held, u, r, now, promoted);
    }
  }

  /** Leaving the new role out of account is as if it had not been granted. */
  lemma LongestWithout(held: map<(UserId, RoleId), Holding>, u: UserId, r: RoleId, now: int, promoted: RoleId)
    requires (u, r) !in held
    ensures var more := held[(u, r) := Holding(Dropped, now)];
            LongestHeld(more, u, RolesOf(more, u) - {r}, promoted) ==> LongestHeld(held, u, RolesOf(held, u), promoted)
  {
    var more := held[(u, r) := Holding(Dropped, now)];
    assert forall q :: q in RolesOf(held, u) ==> (u, q) in held;
    assert RolesOf(more, u) - {r} == RolesOf(held, u) by {
      forall q | q in RolesOf(held, u) ensures q in RolesOf(more, u) { assert (u, q) in more; }
    }
  }

  // ---- the service ----------------------------------------------------------------

  class Service {
    var roles: map<RoleId, Name>
    var users: map<UserId, User>
    var held: map<(UserId, RoleId), Holding>

    ghost function Contents(): Tables
      reads this
    {
      Tables(roles, users, held)
    }

    /** `get_role_by_name`. */
    method RoleByName(name: Name) returns (r: Option<RoleId>)
      requires NamesUnique(roles)
      ensures r.Some? <==> Named(roles, name)
      ensures r.Some? ==> r.value == RoleCalled(roles, name)
    {
      r := None;
      var todo := roles.Keys;
      while todo != {} && r.None?
        invariant todo <= roles.Keys
        invariant r.Some? ==> r.value in roles && roles[r.value] == name
        invariant r.None? ==> forall q :: q in roles && q !in todo ==> roles[q] != name
      {
        var q :| q in todo;
        if roles[q] == name { r := Some(q); }
        todo := todo - {q};
      }
    }

    /** The writes of `assign_role`: a row unless there is one, and the primary role if asked. */
    method Grant(u: UserId, role: RoleId, isPrimary: bool, now: int)
      requires u in users
      modifies this`users, this`held
      ensures Contents() == Granted(old(Contents()), u, role, isPrimary, now)
    {
      if (u, role) !in held {
        held := held[(u, role) := Holding(Dropped, now)];
      }
      if isPrimary {
        users := users[u := users[u].(primary := Cell(role))];
      }
    }

    method AssignRole(u: UserId, name: Name, isPrimary: bool, now: int) returns (r: Outcome)
      requires RolesAgree(Contents()) && u in users
      modifies this`users, this`held
      ensures (Contents(), r) == Handle(old(Contents()), Event(now, Assign(u, name, isPrimary)))
      ensures RolesAgree(Contents())
      ensures r.Done? ==>
                exists q :: q in roles && roles[q] == name && (u, q) in held
                            && (isPrimary ==> users[u].primary == Cell(q))
    {
      var role := RoleByName(name);
      hide RolesAgree, NamesUnique, Named;
      if role.None? { return RoleNotFound; }
      GrantKeeps(Contents(), u, role.value, isPrimary, now);
      Grant(u, role.value, isPrimary, now);
      r := Done;
    }

    /** The least `assigned_at` among the remaining roles. */
    method Oldest(u: UserId, remaining: set<RoleId>) returns (best: RoleId)
      requires remaining != {} && forall q :: q in remaining ==> (u, q) in held
      ensures LongestHeld(held, u, remaining, best)
    {
      best :| best in remaining;
      var todo := remaining - {best};
      while todo != {}
        invariant todo <= remaining && best in remaining
        invariant forall q :: q in remaining && q !in todo ==> held[(u, best)].assignedAt <= held[(u, q)].assignedAt
      {
        var q :| q in todo;
        if held[(u, q)].assignedAt < held[(u, best)].assignedAt { best := q; }
        todo := todo - {q};
      }
    }

    /** The writes of `revoke_role`: the row goes, and if it was the primary role's, the
        longest-held of the others becomes primary. */
    method Remove(u: UserId, role: RoleId) returns (promoted: RoleId)
      requires u in users && RolesOf(held, u) - {role} != {}
      modifies this`users, this`held
      ensures Contents() == Removed(old(Contents()), u, role, promoted)
      ensures old(users)[u].primary == Cell(role) ==>
                LongestHeld(old(held), u, RolesOf(old(held), u) - {role}, promoted)
    {
      promoted := 0;
      var remaining := RolesOf(held, u) - {role};
      var wasPrimary := users[u].primary == Cell(role);
      held := held - {(u, role)};
      if wasPrimary {
        promoted := Oldest(u, remaining);
        users := users[u := users[u].(primary := Cell(promoted))];
      }
    }

    /** `revoke_role`; `promoted` says which role became primary, if one did. */
    method RevokeRole(u: UserId, name: Name, now: int) returns (r: Outcome, promoted: RoleId)
      requires RolesAgree(Contents()) && u in users
      modifies this`users, this`held
      ensures Possible(old(Contents()), Event(now, Revoke(u, name, promoted)))
      ensures (Contents(), r) == Handle(old(Contents()), Event(now, Revoke(u, name, promoted)))
      ensures RolesAgree(Contents())
    {
      var role := RoleByName(name);
      hide RolesAgree, NamesUnique, Named, LongestHeld, Removed;
      promoted := 0;
      if role.None? { return RoleNotFound, 0; }
      r, promoted := RevokeKnown(u, role.value);
    }

    /** The rest of `revoke_role`, once the name is known. */
    method RevokeKnown(u: UserId, role: RoleId) returns (r: Outcome, promoted: RoleId)
      requires RolesAgree(Contents()) && u in users
      modifies this`users, this`held
      ensures RolesAgree(Contents())
      ensures if role !in RolesOf(old(held), u) then r == Done && Contents() == old(Contents())
              else if |RolesOf(old(held), u)| == 1 then r == LastRoleRemoval && Contents() == old(Contents())
              else r == Done && Contents() == Removed(old(Contents()), u, role, promoted)
                   && (old(users)[u].primary == Cell(role)
                       ==> LongestHeld(old(held), u, RolesOf(old(held), u) - {role}, promoted))
    {
      hide RolesAgree, LongestHeld, Removed;
      promoted := 0;
      var current := RolesOf(held, u);
      if role !in current { return Done, 0; }
      if |current| == 1 { return LastRoleRemoval, 0; }
      assert |current - {role}| == |current| - 1;
      promoted := Remove(u, role);
      PromotedIsHeld(old(Contents()), u, role, promoted);
      RemoveKeeps(old(Contents()), u, role, promoted);
      r := Done;
    }

    /** The part of sign-up that is about roles: the account starts as a Buyer. */
    method WelcomeBuyer(u: UserId, now: int) returns (r: Outcome)
      requires RolesAgree(Contents()) && u !in users
      modifies this`users, this`held
      ensures (Contents(), r) == Handle(old(Contents()), Event(now, SignUp(u)))
      ensures RolesAgree(Contents())
    {
      var buyer := RoleByName(BUYER);
      if buyer.None? { return RoleNotFound; }
      WelcomeKeeps(Contents(), u, buyer.value, now);
      assert (u, buyer.value) !in held;
      users := users[u := User(Dropped, Cell(buyer.value))];
      held := held[(u, buyer.value) := Holding(Dropped, now)];
      users := users[u := users[u].(primary := Cell(buyer.value))];
      r := Done;
    }
  }
}
