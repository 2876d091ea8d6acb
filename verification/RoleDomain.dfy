/** The tables that say who holds which role, in each of the two schemas. Role names are
    compared exactly. */
module RoleDomain {

  type RoleId = nat
  type UserId = nat
  type Name = string

  /** A column that a migration adds or drops, or that is NULL. */
  datatype Column<T> = Dropped | Null | Cell(value: T)

  datatype User = User(role: Column<Name>, primary: Column<RoleId>)

  /** A `user_roles` row; the user and the role it is about are its key. */
  datatype Holding = Holding(isPrimary: Column<bool>, assignedAt: int)

  datatype Tables = Tables(roles: map<RoleId, Name>, users: map<UserId, User>, held: map<(UserId, RoleId), Holding>)

  const BUYER: Name := "Buyer"

  function Seeds(): set<Name> {
    {BUYER, "Seller", "Admin", "Accountant", "Inspector", "Manager", "Operations", "AuctionsHead"}
  }

  /** The unique index on role names. */
  ghost predicate NamesUnique(roles: map<RoleId, Name>) {
    forall r, q :: r in roles && q in roles && roles[r] == roles[q] ==> r == q
  }

  /** What the second schema and the service promise: every user holds the role its
      `primary_role_id` names, so holds at least one; and every holding is of a user and a
      role that exist. */
  ghost predicate RolesAgree(db: Tables) {
    && NamesUnique(db.roles)
    && (forall u :: u in db.users ==>
          && db.users[u].role.Dropped? && db.users[u].primary.Cell?
          && (u, db.users[u].primary.value) in db.held)
    && (forall h :: h in db.held ==> h.0 in db.users && h.1 in db.roles && db.held[h].isPrimary.Dropped?)
  }
}
