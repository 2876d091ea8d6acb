/** Migrations 0029 and 0030: from a role string per user to `roles`, `user_roles` and
    `primary_role_id`, and the way back. A migration that would break a constraint fails
    and leaves the tables as they were. */
module RoleMigrations {
  import opened RoleDomain

  const ROLE_WIDTH: nat := 30 // of the users.role column

  /** Before 0029: a role string per user, no role tables. The column is as wide as it is. */
  ghost predicate Legacy(db: Tables) {
    && db.roles == map[] && db.held == map[]
    && forall u :: u in db.users ==>
         && db.users[u].primary.Dropped? && !db.users[u].role.Dropped?
         && (db.users[u].role.Cell? ==> |db.users[u].role.value| <= ROLE_WIDTH)
  }

  function LegacyNames(users: map<UserId, User>): set<Name> {
    set u | u in users && users[u].role.Cell? :: users[u].role.value
  }

  /** The identifiers the migration draws for the roles: one each, none twice. */
  ghost predicate Draws(ids: map<Name, RoleId>, users: map<UserId, User>) {
    && Seeds() + LegacyNames(users) <= ids.Keys
    && forall n, m :: n in ids && m in ids && ids[n] == ids[m] ==> n == m
  }

  /** The role a user is given: that of the string, or Buyer for NULL and for "". */
  function BackfilledName(role: Column<Name>): Name {
    if role.Cell? && role.value != [] then role.value else BUYER
  }

  function RolesNamed(names: set<Name>, ids: map<Name, RoleId>): map<RoleId, Name>
    requires names <= ids.Keys
    requires forall n, m :: n in ids && m in ids && ids[n] == ids[m] ==> n == m
  {
    map n | n in names :: ids[n] := n
  }

  /** One primary `user_roles` row per user. */
  function Holdings(users: map<UserId, User>, ids: map<Name, RoleId>, now: int): map<(UserId, RoleId), Holding>
    requires Draws(ids, users)
  {
    map u | u in users :: (u, ids[BackfilledName(users[u].role)]) := Holding(Cell(true), now)
  }

  function Backfill(db: Tables, ids: map<Name, RoleId>, now: int): Tables
    requires Draws(ids, db.users)
  {
    Tables(RolesNamed(Seeds() + LegacyNames(db.users), ids), db.users, Holdings(db.users, ids, now))
  }

  ghost predicate PrimaryRow(db: Tables, u: UserId, r: RoleId) {
    (u, r) in db.held && db.held[(u, r)].isPrimary == Cell(true)
  }

  /** The filtered unique index: at most one primary row for a user. */
  ghost predicate OnePrimary(db: Tables) {
    forall u, r, q :: PrimaryRow(db, u, r) && PrimaryRow(db, u, q) ==> r == q
  }

  /** 0030 succeeds when every user has a primary row, of a role that exists. */
  ghost predicate Upgradable(db: Tables) {
    forall u :: u in db.users ==> exists r: RoleId :: PrimaryRow(db, u, r) && r in db.roles
  }

  /** The tables after 0030. */
  ghost predicate Upgraded(db: Tables, after: Tables) {
    && after.roles == db.roles && after.users.Keys == db.users.Keys && after.held.Keys == db.held.Keys
    && (forall u :: u in db.users ==>
          && after.users[u].role.Dropped? && after.users[u].primary.Cell?
          && PrimaryRow(db, u, after.users[u].primary.value))
    && (forall h :: h in db.held ==> after.held[h] == Holding(Dropped, db.held[h].assignedAt))
  }

  /** 0030's downgrade succeeds when every primary role exists and its name fits the column. */
  ghost predicate Downgradable(db: Tables) {
    forall u :: u in db.users ==>
      && db.users[u].primary.Cell? && db.users[u].primary.value in db.roles
      && |db.roles[db.users[u].primary.value]| <= ROLE_WIDTH
  }

  function NameOf(roles: map<RoleId, Name>, primary: Column<RoleId>): Column<Name> {
    if primary.Cell? && primary.value in roles then Cell(roles[primary.value]) else Null
  }

  ghost predicate Downgraded(db: Tables, after: Tables) {
    && Downgradable(db)
    && after.roles == db.roles && after.users.Keys == db.users.Keys && after.held.Keys == db.held.Keys
    && (forall u :: u in db.users ==> after.users[u] == User(Cell(db.roles[db.users[u].primary.value]), Dropped))
    && (forall h :: h in db.held ==>
          after.held[h] == Holding(Cell(h.0 in db.users && db.users[h.0].primary == Cell(h.1)), db.held[h].assignedAt))
  }

  // ---- what the migrations establish ------------------------------------------------

  lemma RolesNamedHas(names: set<Name>, ids: map<Name, RoleId>, n: Name)
    requires names <= ids.Keys && n in names
    requires forall n, m :: n in ids && m in ids && ids[n] == ids[m] ==> n == m
    ensures var roles := RolesNamed(names, ids); ids[n] in roles && roles[ids[n]] == n && NamesUnique(roles)
  {
  }

  lemma HoldingsAre(users: map<UserId, User>, ids: map<Name, RoleId>, now: int, h: (UserId, RoleId))
    requires Draws(ids, users)
    ensures var held := Holdings(users, ids, now);
            && (h in held <==> h.0 in users && h.1 == ids[BackfilledName(users[h.0].role)])
            && (h in held ==> held[h] == Holding(Cell(true), now))
  {
  }

  /** The one primary role of a backfilled user. */
  lemma BackfilledPrimary(db: Tables, ids: map<Name, RoleId>, now: int, u: UserId, r: RoleId)
    requires Draws(ids, db.users)
    ensures var after := Backfill(db, ids, now);
            && (PrimaryRow(after, u, r) <==> u in db.users && r == ids[BackfilledName(db.users[u].role)])
            && (PrimaryRow(after, u, r) ==> r in after.roles && after.roles[r] == BackfilledName(db.users[u].role))
  {
    HoldingsAre(db.users, ids, now, (u, r));
    if u in db.users {
      var n := BackfilledName(db.users[u].role);
      assert n in Seeds() + LegacyNames(db.users);
      RolesNamedHas(Seeds() + LegacyNames(db.users), ids, n);
    }
  }

  lemma BackfillIsUpgradable(db: Tables, ids: map<Name, RoleId>, now: int)
    requires Draws(ids, db.users)
    ensures Upgradable(Backfill(db, ids, now)) && OnePrimary(Backfill(db, ids, now))
  {
    hide Backfill, PrimaryRow, Draws, Holdings, RolesNamed;
    var after := Backfill(db, ids, now);
    assert after.users == db.users by { BackfillParts(db, ids, now); }
    forall u | u in after.users ensures exists r: RoleId :: PrimaryRow(after, u, r) && r in after.roles {
      assert BackfilledName(db.users[u].role) in ids by { BackfillParts(db, ids, now); }
      BackfilledPrimary(db, ids, now, u, ids[BackfilledName(db.users[u].role)]);
    }
    forall u, r: RoleId, q: RoleId | PrimaryRow(after, u, r) && PrimaryRow(after, u, q) ensures r == q {
      BackfilledPrimary(db, ids, now, u, r);
      BackfilledPrimary(db, ids, now, u, q);
    }
  }

  lemma BackfillParts(db: Tables, ids: map<Name, RoleId>, now: int)
    requires Draws(ids, db.users)
    ensures Backfill(db, ids, now).users == db.users
    ensures NamesUnique(Backfill(db, ids, now).roles)
    ensures forall u :: u in db.users ==> BackfilledName(db.users[u].role) in ids
  {
  }

  /** For every legacy users table, 0029 and then 0030 succeed and leave every user with at
      least one role and the primary role among them. */
  lemma MigrationsEstablishRoles(db: Tables, ids: map<Name, RoleId>, now: int, after: Tables)
    requires Legacy(db) && Draws(ids, db.users)
    requires Upgraded(Backfill(db, ids, now), after)
    ensures Upgradable(Backfill(db, ids, now)) && RolesAgree(after) && after.users.Keys == db.users.Keys
  {
    hide Backfill, Draws;
    var mid := Backfill(db, ids, now);
    BackfillIsUpgradable(db, ids, now);
    BackfillParts(db, ids, now);
    forall h | h in after.held ensures h.0 in after.users && h.1 in after.roles {
      HeldIsPrimary(db, ids, now, h);
      BackfilledPrimary(db, ids, now, h.0, h.1);
    }
    hide PrimaryRow;
    forall u | u in after.users ensures (u, after.users[u].primary.value) in after.held {
      PrimaryIsHeld(mid, u, after.users[u].primary.value);
    }
  }

  lemma PrimaryIsHeld(db: Tables, u: UserId, r: RoleId)
    requires PrimaryRow(db, u, r)
    ensures (u, r) in db.held
  {
  }

  lemma HeldIsPrimary(db: Tables, ids: map<Name, RoleId>, now: int, h: (UserId, RoleId))
    requires Draws(ids, db.users) && h in Backfill(db, ids, now).held
    ensures PrimaryRow(Backfill(db, ids, now), h.0, h.1)
  {
  }

  lemma UpgradedName(db: Tables, ids: map<Name, RoleId>, now: int, up: Tables, u: UserId)
    requires Draws(ids, db.users) && u in db.users && Upgraded(Backfill(db, ids, now), up)
    ensures u in up.users && up.users[u].primary.Cell? && up.users[u].primary.value in up.roles
    ensures up.roles[up.users[u].primary.value] == BackfilledName(db.users[u].role)
  {
    hide Backfill, Draws, PrimaryRow;
    BackfillParts(db, ids, now);
    BackfilledPrimary(db, ids, now, u, up.users[u].primary.value);
  }

  /** After both migrations a name is a role's exactly if it is one of the eight seeded ones
      or some user's old string. */
  lemma RolesAfterUpgrade(db: Tables, ids: map<Name, RoleId>, now: int, up: Tables, n: Name)
    requires Draws(ids, db.users) && Upgraded(Backfill(db, ids, now), up)
    ensures (exists r :: r in up.roles && up.roles[r] == n) <==>
              || n in ["Buyer", "Seller", "Admin", "Accountant", "Inspector", "Manager", "Operations", "AuctionsHead"]
              || exists v :: v in db.users && db.users[v].role == Cell(n)
  {
    NamesAre(db.users, n);
    RolesAre(Seeds() + LegacyNames(db.users), ids, n);
    hide Seeds, LegacyNames, RolesNamed, Holdings, PrimaryRow;
  }

  /** And each user holds exactly the role of the old string, or Buyer where it said nothing,
      since the backfill. */
  lemma EveryoneKeepsTheirRole(db: Tables, ids: map<Name, RoleId>, now: int, up: Tables, u: UserId)
    requires Legacy(db) && Draws(ids, db.users) && Upgraded(Backfill(db, ids, now), up) && u in db.users
    ensures u in up.users && up.users[u].primary.Cell?
    ensures var r := up.users[u].primary.value;
            && r in up.roles
            && up.roles[r] == (if db.users[u].role in {Null, Cell("")} then "Buyer" else db.users[u].role.value)
            && (u, r) in up.held && up.held[(u, r)] == Holding(Dropped, now)
            && forall q :: (u, q) in up.held ==> q == r
  {
    UpgradedName(db, ids, now, up, u);
    OnlyBackfilledHolding(db, ids, now, u);
    UpgradedHolding(db, ids, now, up, u);
    hide Backfill, Draws, Upgraded;
  }

  lemma NamesAre(users: map<UserId, User>, n: Name)
    ensures n in Seeds() + LegacyNames(users) <==>
              || n in ["Buyer", "Seller", "Admin", "Accountant", "Inspector", "Manager", "Operations", "AuctionsHead"]
              || exists v :: v in users && users[v].role == Cell(n)
  {
  }

  lemma RolesAre(names: set<Name>, ids: map<Name, RoleId>, n: Name)
    requires names <= ids.Keys
    requires forall n, m :: n in ids && m in ids && ids[n] == ids[m] ==> n == m
    ensures var roles := RolesNamed(names, ids); (exists r :: r in roles && roles[r] == n) <==> n in names
  {
    if n in names { RolesNamedHas(names, ids, n); }
  }

  lemma UpgradedHolding(db: Tables, ids: map<Name, RoleId>, now: int, up: Tables, u: UserId)
    requires Draws(ids, db.users) && u in db.users && Upgraded(Backfill(db, ids, now), up)
    ensures var mid := Backfill(db, ids, now);
            && u in up.users && up.users[u].primary.Cell?
            && var r := up.users[u].primary.value;
               && (u, r) in mid.held && (u, r) in up.held
               && up.held[(u, r)] == Holding(Dropped, mid.held[(u, r)].assignedAt) && up.held.Keys == mid.held.Keys
  {
    BackfillParts(db, ids, now);
    hide Backfill, Draws;
  }

  lemma OnlyBackfilledHolding(db: Tables, ids: map<Name, RoleId>, now: int, u: UserId)
    requires Draws(ids, db.users) && u in db.users
    ensures var held := Backfill(db, ids, now).held;
            && (forall q, r :: (u, q) in held && (u, r) in held ==> q == r)
            && forall q :: (u, q) in held ==> held[(u, q)].assignedAt == now
  {
    forall q | (u, q) in Holdings(db.users, ids, now)
      ensures q == ids[BackfilledName(db.users[u].role)] && Holdings(db.users, ids, now)[(u, q)].assignedAt == now
    {
      HoldingsAre(db.users, ids, now, (u, q));
    }
  }

  lemma UpgradedIsDowngradable(db: Tables, ids: map<Name, RoleId>, now: int, up: Tables)
    requires Legacy(db) && Draws(ids, db.users) && Upgraded(Backfill(db, ids, now), up)
    ensures Downgradable(up) && up.users.Keys == db.users.Keys
  {
    hide Draws, Backfill, Seeds, PrimaryRow, Upgraded, Legacy, BackfilledName;
    BackfillParts(db, ids, now);
    UpgradedUsers(Backfill(db, ids, now), up);
    forall v | v in up.users
      ensures up.users[v].primary.Cell? && up.users[v].primary.value in up.roles
      ensures |up.roles[up.users[v].primary.value]| <= ROLE_WIDTH
    {
      UpgradedName(db, ids, now, up, v);
      BackfilledNameFits(db, v);
    }
  }

  lemma UpgradedUsers(db: Tables, up: Tables)
    requires Upgraded(db, up)
    ensures up.users.Keys == db.users.Keys
  {
  }

  lemma BackfilledNameFits(db: Tables, v: UserId)
    requires Legacy(db) && v in db.users
    ensures |BackfilledName(db.users[v].role)| <= ROLE_WIDTH
  {
  }

  /** The 0030 downgrade always succeeds on what the two upgrades produced, and gives a user
      back its role string if and only if that string was neither NULL nor empty. */
  lemma LegacyRolesComeBack(db: Tables, ids: map<Name, RoleId>, now: int, up: Tables, down: Tables, u: UserId)
    requires Legacy(db) && Draws(ids, db.users) && u in db.users
    requires Upgraded(Backfill(db, ids, now), up)
    ensures Downgradable(up)
    ensures Downgraded(up, down) ==>
              (down.users[u].role == db.users[u].role <==> db.users[u].role.Cell? && db.users[u].role.value != [])
  {
    hide Upgraded, Draws, Backfill, Seeds, Downgradable;
    UpgradedIsDowngradable(db, ids, now, up);
    UpgradedName(db, ids, now, up, u);
  }

  /** Every user has a primary row, and its role's name as the role string. */
  ghost predicate PrimaryNamed(db: Tables) {
    forall u :: u in db.users ==>
      exists r: RoleId :: PrimaryRow(db, u, r) && r in db.roles && db.users[u].role == Cell(db.roles[r])
  }

  /** A legacy table of one user, whose role is the empty string. */
  function EmptyRole(): Tables {
    Tables(map[], map[0 := User(Cell([]), Dropped)], map[])
  }

  /** What 0029 makes of it: one row, for Buyer. */
  lemma EmptyRoleBackfilled(ids: map<Name, RoleId>, now: int)
    requires Draws(ids, EmptyRole().users)
    ensures BUYER in ids
    ensures var mid := Backfill(EmptyRole(), ids, now);
            && mid.users == EmptyRole().users && PrimaryRow(mid, 0, ids[BUYER]) && mid.held.Keys == {(0, ids[BUYER])}
            && ids[BUYER] in mid.roles && mid.roles[ids[BUYER]] == BUYER
  {
    hide Backfill, Draws, PrimaryRow;
    var db, mid := EmptyRole(), Backfill(EmptyRole(), ids, now);
    BackfillParts(db, ids, now);
    assert BackfilledName(db.users[0].role) == BUYER;
    BackfilledPrimary(db, ids, now, 0, ids[BUYER]);
    PrimaryIsHeld(mid, 0, ids[BUYER]);
    forall h | h in mid.held ensures h == (0, ids[BUYER]) {
      HeldIsPrimary(db, ids, now, h);
      BackfilledPrimary(db, ids, now, h.0, h.1);
    }
  }

  /** One user with one role, in the schema of 0030. */
  function OneHolder(roles: map<RoleId, Name>, r: RoleId, assignedAt: int): Tables {
    Tables(roles, map[0 := User(Dropped, Cell(r))], map[(0, r) := Holding(Dropped, assignedAt)])
  }

  lemma OneHolderUp(db: Tables, r: RoleId)
    requires db.users.Keys == {0} && PrimaryRow(db, 0, r) && db.held.Keys == {(0, r)}
    ensures Upgraded(db, OneHolder(db.roles, r, db.held[(0, r)].assignedAt))
  {
  }

  lemma OneHolderDown(roles: map<RoleId, Name>, r: RoleId, assignedAt: int) returns (down: Tables)
    requires r in roles && |roles[r]| <= ROLE_WIDTH
    ensures Downgraded(OneHolder(roles, r, assignedAt), down) && down.users[0].role == Cell(roles[r])
  {
    down := Tables(roles, map[0 := User(Cell(roles[r]), Dropped)], map[(0, r) := Holding(Cell(true), assignedAt)]);
  }

  /** Up and down again, that user is a Buyer. */
  lemma AnEmptyRoleBecomesBuyer(ids: map<Name, RoleId>, now: int) returns (up: Tables, down: Tables)
    requires Draws(ids, EmptyRole().users)
    ensures Legacy(EmptyRole()) && Upgraded(Backfill(EmptyRole(), ids, now), up) && Downgraded(up, down)
    ensures down.users[0].role == Cell(BUYER) != EmptyRole().users[0].role
  {
    hide Draws, Backfill, PrimaryRow, Upgraded, Downgraded;
    EmptyRoleBackfilled(ids, now);
    var mid := Backfill(EmptyRole(), ids, now);
    OneHolderUp(mid, ids[BUYER]);
    up := OneHolder(mid.roles, ids[BUYER], mid.held[(0, ids[BUYER])].assignedAt);
    down := OneHolderDown(mid.roles, ids[BUYER], mid.held[(0, ids[BUYER])].assignedAt);
  }

  /** After the downgrade the primary rows are those that `primary_role_id` named. */
  lemma DowngradedPrimary(db: Tables, down: Tables, u: UserId, r: RoleId)
    requires RolesAgree(db) && Downgraded(db, down)
    ensures PrimaryRow(down, u, r) <==> u in db.users && db.users[u].primary == Cell(r)
    ensures PrimaryRow(down, u, r) ==> r in down.roles && down.users[u].role == Cell(db.roles[r])
  {
  }

  lemma DowngradeIsUpgradable(db: Tables, down: Tables)
    requires RolesAgree(db) && Downgraded(db, down)
    ensures OnePrimary(down) && Upgradable(down) && PrimaryNamed(down) && down.users.Keys == db.users.Keys
  {
    assert forall u :: u in db.users ==> db.users[u].primary.Cell?;
    assert down.users.Keys == db.users.Keys && down.roles == db.roles;
    hide RolesAgree, Downgraded, PrimaryRow;
    forall u | u in db.users
      ensures exists r: RoleId :: PrimaryRow(down, u, r) && r in down.roles && down.users[u].role == Cell(down.roles[r])
    {
      DowngradedPrimary(db, down, u, db.users[u].primary.value);
    }
    forall u, r: RoleId, q: RoleId | PrimaryRow(down, u, r) && PrimaryRow(down, u, q) ensures r == q {
      DowngradedPrimary(db, down, u, r);
      DowngradedPrimary(db, down, u, q);
    }
  }

  lemma SameUsers(db: Tables, down: Tables, up: Tables, u: UserId)
    requires RolesAgree(db) && Downgraded(db, down) && Upgraded(down, up) && u in db.users
    ensures u in up.users && up.users[u] == db.users[u]
  {
    assert u in down.users;
    assert PrimaryRow(down, u, up.users[u].primary.value);
    hide Upgraded, PrimaryRow;
    DowngradedPrimary(db, down, u, up.users[u].primary.value);
  }

  lemma SameHoldings(db: Tables, down: Tables, up: Tables, h: (UserId, RoleId))
    requires RolesAgree(db) && Downgraded(db, down) && Upgraded(down, up) && h in db.held
    ensures h in up.held && up.held[h] == db.held[h]
  {
    hide PrimaryRow;
    assert h in down.held;
  }

  lemma SameKeys(db: Tables, down: Tables, up: Tables)
    requires Downgraded(db, down) && Upgraded(down, up)
    ensures up.roles == db.roles && up.users.Keys == db.users.Keys && up.held.Keys == db.held.Keys
  {
  }

  lemma RoundTrip(db: Tables, down: Tables, up: Tables)
    requires RolesAgree(db) && Downgraded(db, down) && Upgraded(down, up)
    ensures up == db
  {
    hide *;
    SameKeys(db, down, up);
    forall u | u in db.users ensures u in up.users && up.users[u] == db.users[u] { SameUsers(db, down, up, u); }
    assert up.users == db.users;
    forall h | h in db.held ensures h in up.held && up.held[h] == db.held[h] { SameHoldings(db, down, up, h); }
    assert up.held == db.held;
  }

  /** 0030 and its downgrade undo each other on every state the service can be in: exactly
      one primary row per user, its name as the role string, and the same tables again. */
  lemma DowngradeThenUpgrade(db: Tables, down: Tables, up: Tables)
    requires RolesAgree(db) && Downgraded(db, down)
    ensures OnePrimary(down) && Upgradable(down) && PrimaryNamed(down) && down.users.Keys == db.users.Keys
    ensures Upgraded(down, up) ==> up == db
  {
    DowngradeIsUpgradable(db, down);
    hide *;
    if Upgraded(down, up) { RoundTrip(db, down, up); }
  }

  // ---- the migrations, statement by statement ---------------------------------------

  lemma JoinNames(some: set<Name>, more: set<Name>, ids: map<Name, RoleId>)
    requires some + more <= ids.Keys
    requires forall n, m :: n in ids && m in ids && ids[n] == ids[m] ==> n == m
    ensures RolesNamed(some, ids) + RolesNamed(more, ids) == RolesNamed(some + more, ids)
  {
  }

  lemma BackfilledIn(users: map<UserId, User>, ids: map<Name, RoleId>, u: UserId)
    requires Draws(ids, users) && u in users
    ensures BUYER in ids && (users[u].role.Cell? ==> users[u].role.value in ids)
  {
  }

  /** The rows of one user in the backfilled table. */
  lemma HoldingsAt(users: map<UserId, User>, ids: map<Name, RoleId>, now: int, u: UserId)
    requires Draws(ids, users) && u in users
    ensures BackfilledName(users[u].role) in ids
    ensures forall h: (UserId, RoleId) :: h.0 == u
              ==> (h in Holdings(users, ids, now) <==> h == (u, ids[BackfilledName(users[u].role)]))
    ensures Holdings(users, ids, now)[(u, ids[BackfilledName(users[u].role)])] == Holding(Cell(true), now)
  {
  }

  lemma NoOtherHoldings(users: map<UserId, User>, ids: map<Name, RoleId>, now: int)
    requires Draws(ids, users)
    ensures forall h :: h in Holdings(users, ids, now) ==> h.0 in users
  {
  }

  /** The filled column fits exactly when the downgrade can go through. */
  lemma NamesFit(db: Tables, users: map<UserId, User>)
    requires users.Keys == db.users.Keys && forall u :: u in users ==>
              users[u].role == NameOf(db.roles, db.users[u].primary)
    ensures Downgradable(db) <==> forall u :: u in users ==> users[u].role.Cell? && |users[u].role.value| <= ROLE_WIDTH
  {
    if forall u :: u in users ==> users[u].role.Cell? && |users[u].role.value| <= ROLE_WIDTH {
      forall u | u in db.users
        ensures db.users[u].primary.Cell? && db.users[u].primary.value in db.roles
        ensures |db.roles[db.users[u].primary.value]| <= ROLE_WIDTH
      {
        assert u in users;
      }
    }
  }

  lemma SamePrimary(db: Tables, g: (UserId, RoleId), h: (UserId, RoleId))
    requires OnePrimary(db) && g.0 == h.0 && g in db.held && h in db.held
    requires db.held[g].isPrimary == Cell(true) && db.held[h].isPrimary == Cell(true)
    ensures g == h
  {
    assert PrimaryRow(db, g.0, g.1) && PrimaryRow(db, h.0, h.1);
  }

  class Schema {
    var roles: map<RoleId, Name>
    var users: map<UserId, User>
    var held: map<(UserId, RoleId), Holding>

    ghost function Contents(): Tables
      reads this
    {
      Tables(roles, users, held)
    }

    /** The `roles` rows: the seed list, then a row for each legacy name outside it. */
    method InsertRoles(ids: map<Name, RoleId>)
      requires Draws(ids, users)
      modifies this`roles
      ensures roles == RolesNamed(Seeds() + LegacyNames(users), ids)
    {
      hide Seeds, LegacyNames;
      roles := RolesNamed(Seeds(), ids);
      var unseeded := LegacyNames(users) - Seeds();
      if unseeded != {} {
        roles := roles + RolesNamed(unseeded, ids);
      }
      assert Seeds() + unseeded == Seeds() + LegacyNames(users);
      JoinNames(Seeds(), unseeded, ids);
    }

    /** The `user_roles` rows, one user after the other. */
    method InsertHoldings(ids: map<Name, RoleId>, now: int)
      requires Draws(ids, users) && held == map[]
      modifies this`held
      ensures held == Holdings(users, ids, now)
    {
      hide Draws, Holdings, RolesNamed, LegacyNames;
      ghost var target := Holdings(users, ids, now);
      NoOtherHoldings(users, ids, now);
      var todo := users.Keys;
      while todo != {}
        invariant todo <= users.Keys
        invariant forall h :: h in held <==> h in target && h.0 !in todo
        invariant forall h :: h in held ==> held[h] == target[h]
      {
        var u :| u in todo;
        BackfilledIn(users, ids, u);
        HoldingsAt(users, ids, now, u);
        var role := ids[BUYER];
        if users[u].role.Cell? && users[u].role.value != [] && users[u].role.value in ids {
          role := ids[users[u].role.value];
        }
        held := held[(u, role) := Holding(Cell(true), now)];
        todo := todo - {u};
      }
      assert held == target;
    }

    /** `_seed_roles`, then `_backfill_user_roles`. */
    method Upgrade0029(ids: map<Name, RoleId>, now: int)
      requires Legacy(Contents()) && Draws(ids, users)
      modifies this
      ensures Contents() == Backfill(old(Contents()), ids, now)
    {
      InsertRoles(ids);
      InsertHoldings(ids, now);
    }

    /** The `UPDATE` of 0030: each primary row sets its user's new column. */
    method FillPrimary()
      requires OnePrimary(Contents())
      modifies this`users
      ensures users.Keys == old(users).Keys
      ensures forall u :: u in users ==> users[u].role == old(users)[u].role
      ensures forall u, r: RoleId :: u in users ==> (users[u].primary == Cell(r) <==> PrimaryRow(old(Contents()), u, r))
    {
      hide OnePrimary;
      users := map u | u in users :: users[u].(primary := Null);
      var todo := held.Keys;
      while todo != {}
        invariant todo <= held.Keys && users.Keys == old(users).Keys
        invariant forall u :: u in users ==> users[u].role == old(users)[u].role
        invariant forall u :: u in users && users[u].primary.Cell?
                    ==> PrimaryRow(old(Contents()), u, users[u].primary.value)
        invariant forall h :: h in held && h !in todo && held[h].isPrimary == Cell(true) && h.0 in users
                    ==> users[h.0].primary == Cell(h.1)
      {
        var h :| h in todo;
        if held[h].isPrimary == Cell(true) && h.0 in users {
          forall g | g in held && held[g].isPrimary == Cell(true) && g.0 == h.0 ensures g == h {
            SamePrimary(old(Contents()), g, h);
          }
          users := users[h.0 := users[h.0].(primary := Cell(h.1))];
        }
        todo := todo - {h};
      }
      forall u, r: RoleId | u in users && PrimaryRow(old(Contents()), u, r) ensures users[u].primary == Cell(r) {
        assert (u, r) in held;
      }
    }

    /** `upgrade` of 0030: add the column, fill it from the primary rows, tighten it, and
        drop the two columns it replaces. */
    method Upgrade0030() returns (ok: bool)
      requires OnePrimary(Contents())
      modifies this
      ensures ok <==> Upgradable(old(Contents()))
      ensures if ok then Upgraded(old(Contents()), Contents()) else Contents() == old(Contents())
    {
      hide PrimaryRow, OnePrimary;
      var rollback := users;
      FillPrimary();
      ok := forall u :: u in users ==> users[u].primary.Cell? && users[u].primary.value in roles;
      if !ok {
        var u :| u in users && !(users[u].primary.Cell? && users[u].primary.value in roles);
        assert forall r: RoleId :: PrimaryRow(old(Contents()), u, r) ==> users[u].primary == Cell(r);
        users := rollback;
        return;
      }
      forall u | u in users ensures exists r: RoleId :: PrimaryRow(old(Contents()), u, r) && r in roles {
        assert PrimaryRow(old(Contents()), u, users[u].primary.value);
      }
      users := map u | u in users :: users[u].(role := Dropped);
      held := map h | h in held :: held[h].(isPrimary := Dropped);
    }

    /** `is_primary` again, set where `primary_role_id` points. */
    method MarkPrimary()
      modifies this`held
      ensures held.Keys == old(held).Keys
      ensures forall h :: h in held ==> held[h] == Holding(Cell(h.0 in users && users[h.0].primary == Cell(h.1)),
                                                           old(held)[h].assignedAt)
    {
      held := map h | h in held :: held[h].(isPrimary := Cell(false));
      held := map h | h in held ::
        if h.0 in users && users[h.0].primary == Cell(h.1) then held[h].(isPrimary := Cell(true)) else held[h];
    }

    /** `role` again, from the name of the primary role; NULL where there is none. */
    method FillRole()
      modifies this`users
      ensures users.Keys == old(users).Keys
      ensures forall u :: u in users ==> users[u].primary == old(users)[u].primary
      ensures forall u :: u in users ==> users[u].role == NameOf(roles, users[u].primary)
    {
      users := map u | u in users ::
        users[u].(role := NameOf(roles, users[u].primary));
    }

    /** `downgrade` of 0030, the inverse sequence. */
    method Downgrade0030() returns (ok: bool)
      modifies this
      ensures ok <==> Downgradable(old(Contents()))
      ensures if ok then Downgraded(old(Contents()), Contents()) else Contents() == old(Contents())
    {
      var rollbackUsers, rollbackHeld := users, held;
      MarkPrimary();
      FillRole();
      ok := forall u :: u in users ==> users[u].role.Cell? && |users[u].role.value| <= ROLE_WIDTH;
      NamesFit(old(Contents()), users);
      if !ok {
        users, held := rollbackUsers, rollbackHeld;
        return;
      }
      users := map u | u in users :: users[u].(primary := Dropped);
    }
  }
}
