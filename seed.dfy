/** The seed script (backend/prisma/seed.ts): get-or-create the three roles,
    then make sure the `admin` account exists, is ACTIVE, is a SUPER_ADMIN
    and has the password "admin"; on a first run it also creates the `user`
    and `superadmin` accounts. The script stops at the first failing write. */
module Seed {
  import opened Common
  import opened Entities
  import opened Store
  import Users

  datatype RoleSpec = RoleSpec(name: string, description: string)

  const SuperAdminRole := "SUPER_ADMIN"
  const Specs: seq<RoleSpec> := [
    RoleSpec(SuperAdminRole, "Super administrateur avec tous les droits"),
    RoleSpec("ADMIN", "Administrateur avec droits étendus"),
    RoleSpec("USER", "Utilisateur standard")]

  const AdminUsername := "admin"
  const AdminPassword := "admin"

  // -----------------------------------------------------------------------
  // The role loop (lines 10-33)
  // -----------------------------------------------------------------------

  /** `createdRoles[name]` is the row of that name. */
  ghost predicate Mapped(roles: map<Id, Role>, ids: map<string, Id>, name: string) {
    name in ids && ids[name] in roles && roles[ids[name]].name == name
  }

  /** Every seeded role name has a row. */
  ghost predicate AllRolesPresent(roles: map<Id, Role>) {
    forall j :: 0 <= j < |Specs| ==> Users.HasRoleNamed(roles, Specs[j].name)
  }

  /** The old rows are kept as they were. */
  ghost predicate Kept<T>(before: map<Id, T>, after: map<Id, T>) {
    forall k :: k in before ==> k in after && after[k] == before[k]
  }

  /** Each row added to `before` is one of the seeded roles; with the old
      rows kept and names unique, its name had no row before. */
  ghost predicate OnlySeededAdded(before: map<Id, Role>, after: map<Id, Role>) {
    forall k :: k in after && k !in before ==>
      after[k].description.Some? && RoleSpec(after[k].name, after[k].description.value) in Specs
  }

  /** What one turn of the role loop does to the role table: the row named
      `spec.name` is found, or created with the next identifier. */
  ghost predicate RoleEnsured(before: map<Id, Role>, after: map<Id, Role>, nextBefore: Id, nextAfter: Id,
                              spec: RoleSpec, id: Id) {
    && id in after && after[id].name == spec.name
    && (Users.HasRoleNamed(before, spec.name) ==> after == before && nextAfter == nextBefore)
    && (!Users.HasRoleNamed(before, spec.name) ==>
          id == nextBefore && id !in before && after == before[id := Role(id, spec.name, Some(spec.description))])
  }

  /** One turn of the role loop: `findUnique` by name, `create` when absent. */
  method EnsureRole(db: Db, spec: RoleSpec) returns (id: Id)
    requires db.Valid()
    modifies db`roles, db`nextId
    ensures db.Valid()
    ensures RoleEnsured(old(db.roles), db.roles, old(db.nextId), db.nextId, spec, id)
  {
    var role := RoleNamed(db.roles, db.nextId, spec.name);
    if role.Some? {
      id := role.value.id;
      return;
    }
    id := db.FreshId();
    db.roles := db.roles[id := Role(id, spec.name, Some(spec.description))];
  }

  /** The role loop's invariant after `i` turns. */
  ghost predicate RolesLoop(start: map<Id, Role>, roles: map<Id, Role>, nextStart: Id, next: Id,
                            ids: map<string, Id>, i: nat) {
    && i <= |Specs|
    && (forall j :: 0 <= j < i ==> Mapped(roles, ids, Specs[j].name))
    && Kept(start, roles) && OnlySeededAdded(start, roles)
    && (AllRolesPresent(start) ==> roles == start && next == nextStart)
  }

  lemma RolesLoopStep(start: map<Id, Role>, before: map<Id, Role>, after: map<Id, Role>,
                      nextStart: Id, next: Id, next': Id, ids: map<string, Id>, i: nat, id: Id)
    requires i < |Specs| && RolesLoop(start, before, nextStart, next, ids, i)
    requires RoleEnsured(before, after, next, next', Specs[i], id)
    ensures RolesLoop(start, after, nextStart, next', ids[Specs[i].name := id], i + 1)
  {
    var ids' := ids[Specs[i].name := id];
    forall j | 0 <= j < i + 1 ensures Mapped(after, ids', Specs[j].name) {
      if j < i {
        assert Specs[j].name != Specs[i].name;
        assert Mapped(before, ids, Specs[j].name);
      }
    }
    if AllRolesPresent(start) {
      assert Users.HasRoleNamed(start, Specs[i].name);
    }
  }

  /** Finds each seeded role by name and creates the missing ones. */
  method EnsureRoles(db: Db) returns (ids: map<string, Id>)
    requires db.Valid()
    modifies db`roles, db`nextId
    ensures db.Valid()
    ensures forall j :: 0 <= j < |Specs| ==> Mapped(db.roles, ids, Specs[j].name)
    ensures Mapped(db.roles, ids, SuperAdminRole) && Mapped(db.roles, ids, "USER")
    ensures Kept(old(db.roles), db.roles) && OnlySeededAdded(old(db.roles), db.roles)
    ensures AllRolesPresent(old(db.roles)) ==> db.roles == old(db.roles) && db.nextId == old(db.nextId)
  {
    ids := map[];
    var i := 0;
    while i < |Specs|
      invariant db.Valid()
      invariant RolesLoop(old(db.roles), db.roles, old(db.nextId), db.nextId, ids, i)
    {
      ghost var before, next := db.roles, db.nextId;
      var id := EnsureRole(db, Specs[i]);
      RolesLoopStep(old(db.roles), before, db.roles, old(db.nextId), next, db.nextId, ids, i, id);
      ids := ids[Specs[i].name := id];
      i := i + 1;
    }
    assert Specs[0].name == SuperAdminRole && Specs[2].name == "USER";
  }

  // -----------------------------------------------------------------------
  // An existing admin (lines 36-74)
  // -----------------------------------------------------------------------

  /** What the script demands of the admin account. */
  predicate AdminConfigured(u: User, superAdminId: Id) {
    Compare(AdminPassword, u.password) && u.status == ACTIVE && u.roleId == superAdminId
  }

  /** The admin row after the checks of lines 44-74: a wrong password is
      replaced and status and role are forced; with the right password only
      a wrong status or role is fixed. */
  function Repaired(u: User, superAdminId: Id): (v: User)
    ensures AdminConfigured(v, superAdminId)
    ensures AdminConfigured(u, superAdminId) ==> v == u
    ensures v == u.(password := v.password, status := ACTIVE, roleId := superAdminId)
    ensures Compare(AdminPassword, u.password) ==> v.password == u.password
  {
    if !Compare(AdminPassword, u.password) then
      u.(password := Hash(AdminPassword), status := ACTIVE, roleId := superAdminId)
    else if u.status != ACTIVE || u.roleId != superAdminId then
      u.(status := ACTIVE, roleId := superAdminId)
    else u
  }

  method RepairAdmin(db: Db, id: Id, superAdminId: Id)
    requires db.Valid()
    requires id in db.users && superAdminId in db.roles
    modifies db`users
    ensures db.Valid()
    ensures db.users == old(db.users)[id := Repaired(old(db.users)[id], superAdminId)]
  {
    var u := db.users[id];
    var v := Repaired(u, superAdminId);
    if v != u {
      ReplaceUserValid(db.users, db.roles, db.nextId, v);
      db.users := db.users[id := v];
    }
  }

  // -----------------------------------------------------------------------
  // Creating an account (lines 76-121)
  // -----------------------------------------------------------------------

  /** An ACTIVE account as the script creates it, with the password "admin". */
  function SeedUser(id: Id, username: string, email: string, firstName: string, roleId: Id, now: int): User {
    User(id, username, email, Hash(AdminPassword), Some(firstName), Some("System"), None, None,
         ACTIVE, roleId, None, None, None, None, now)
  }

  /** `user.create`: the unique username and email indexes reject a clash. */
  method CreateSeedUser(db: Db, username: string, email: string, firstName: string, roleId: Id, now: int)
    returns (r: Result<Id>)
    requires db.Valid() && roleId in db.roles
    modifies db`users, db`nextId
    ensures db.Valid()
    ensures Kept(old(db.users), db.users)
    ensures r.Err? <==> Users.IdentityTaken(old(db.users), username, email)
    ensures r.Err? ==> r.error == DatabaseError(UniqueViolation) && db.users == old(db.users) && db.nextId == old(db.nextId)
    ensures r.Ok? ==> r.value == old(db.nextId) && db.nextId == r.value + 1 && r.value !in old(db.users)
                      && db.users == old(db.users)[r.value := SeedUser(r.value, username, email, firstName, roleId, now)]
  {
    var clash := FirstRow(db.users, db.nextId, (u: User) => u.username == username || u.email == email);
    if clash.Some? {
      return Err(DatabaseError(UniqueViolation));
    }
    var id := InsertSeedUser(db, username, email, firstName, roleId, now);
    r := Ok(id);
  }

  /** The write of `user.create` once no row clashes. */
  method InsertSeedUser(db: Db, username: string, email: string, firstName: string, roleId: Id, now: int)
    returns (id: Id)
    requires db.Valid() && roleId in db.roles && !Users.IdentityTaken(db.users, username, email)
    modifies db`users, db`nextId
    ensures db.Valid()
    ensures id == old(db.nextId) && db.nextId == id + 1 && id !in old(db.users)
    ensures db.users == old(db.users)[id := SeedUser(id, username, email, firstName, roleId, now)]
  {
    id := db.FreshId();
    var u := SeedUser(id, username, email, firstName, roleId, now);
    AddUserValid(db.users, db.roles, db.nextId, u);
    db.users := db.users[id := u];
  }

  // -----------------------------------------------------------------------
  // main (lines 6-127)
  // -----------------------------------------------------------------------

  /** No row holds the admin account's username or email. */
  ghost predicate AdminFree(users: map<Id, User>) {
    !Users.IdentityTaken(users, AdminUsername, "admin@example.com")
  }

  /** No row holds the username or email of either demonstration account. */
  ghost predicate DemoFree(users: map<Id, User>) {
    && !Users.IdentityTaken(users, "user", "user@example.com")
    && !Users.IdentityTaken(users, "superadmin", "superadmin@example.com")
  }

  /** A row whose username and email differ from a free pair leaves it free. */
  lemma FreeAfterInsert(users: map<Id, User>, k: Id, u: User, username: string, email: string)
    requires !Users.IdentityTaken(users, username, email)
    requires u.username != username && u.email != email
    ensures !Users.IdentityTaken(users[k := u], username, email)
  {
  }

  /** Creating the admin account leaves the demonstration identities free. */
  lemma DemoFreeAfterAdmin(users: map<Id, User>, k: Id, u: User)
    requires DemoFree(users) && u.username == AdminUsername && u.email == "admin@example.com"
    ensures DemoFree(users[k := u])
  {
    FreeAfterInsert(users, k, u, "user", "user@example.com");
    FreeAfterInsert(users, k, u, "superadmin", "superadmin@example.com");
  }

  /** Creating the `user` account leaves the `superadmin` identity free. */
  lemma SuperAdminFreeAfterUser(users: map<Id, User>, k: Id, u: User)
    requires DemoFree(users) && u.username == "user" && u.email == "user@example.com"
    ensures !Users.IdentityTaken(users[k := u], "superadmin", "superadmin@example.com")
  {
    FreeAfterInsert(users, k, u, "superadmin", "superadmin@example.com");
  }

  /** The two demonstration accounts created after the admin (lines 94-121). */
  method CreateDemoAccounts(db: Db, ids: map<string, Id>, now: int) returns (r: Result<(Id, Id)>)
    requires db.Valid() && Mapped(db.roles, ids, SuperAdminRole) && Mapped(db.roles, ids, "USER")
    modifies db`users, db`nextId
    ensures db.Valid()
    ensures Kept(old(db.users), db.users)
    ensures DemoFree(old(db.users)) ==> r.Ok?
    ensures r.Ok? ==>
      && old(db.nextId) <= r.value.0 < r.value.1 && r.value.0 !in old(db.users)
      && db.users == old(db.users)
           [r.value.0 := SeedUser(r.value.0, "user", "user@example.com", "User", ids["USER"], now)]
           [r.value.1 := SeedUser(r.value.1, "superadmin", "superadmin@example.com", "Super Admin", ids[SuperAdminRole], now)]
  {
    var user := CreateSeedUser(db, "user", "user@example.com", "User", ids["USER"], now);
    if user.Err? {
      return Err(user.error);
    }
    if DemoFree(old(db.users)) {
      SuperAdminFreeAfterUser(old(db.users), user.value, db.users[user.value]);
    }
    ghost var afterUser := db.users;
    var superAdmin := CreateSeedUser(db, "superadmin", "superadmin@example.com", "Super Admin", ids[SuperAdminRole], now);
    KeptTransitive(old(db.users), afterUser, db.users);
    if superAdmin.Err? {
      return Err(superAdmin.error);
    }
    r := Ok((user.value, superAdmin.value));
  }

  /** The three accounts of a first run, created in this order; the first
      failing `create` ends the script. */
  method CreateAccounts(db: Db, ids: map<string, Id>, now: int) returns (r: Result<(Id, Id, Id)>)
    requires db.Valid() && Mapped(db.roles, ids, SuperAdminRole) && Mapped(db.roles, ids, "USER")
    modifies db`users, db`nextId
    ensures db.Valid()
    ensures Kept(old(db.users), db.users)
    ensures AdminFree(old(db.users)) && DemoFree(old(db.users)) ==> r.Ok?
    ensures r.Ok? ==>
      var (a, u, s) := r.value;
      && old(db.nextId) <= a < u < s && a !in old(db.users)
      && db.users == old(db.users)
           [a := SeedUser(a, AdminUsername, "admin@example.com", "Admin", ids[SuperAdminRole], now)]
           [u := SeedUser(u, "user", "user@example.com", "User", ids["USER"], now)]
           [s := SeedUser(s, "superadmin", "superadmin@example.com", "Super Admin", ids[SuperAdminRole], now)]
  {
    var admin := CreateSeedUser(db, AdminUsername, "admin@example.com", "Admin", ids[SuperAdminRole], now);
    if admin.Err? {
      return Err(admin.error);
    }
    if DemoFree(old(db.users)) {
      DemoFreeAfterAdmin(old(db.users), admin.value, db.users[admin.value]);
    }
    var demo := CreateDemoAccounts(db, ids, now);
    if demo.Err? {
      return Err(demo.error);
    }
    r := Ok((admin.value, demo.value.0, demo.value.1));
  }

  /** The state the script establishes: every seeded role exists and the
      admin account is configured with the SUPER_ADMIN role. */
  ghost predicate Seeded(db: Db)
    reads db
  {
    AllRolesPresent(db.roles) && AdminReady(db.users, db.roles)
  }

  ghost predicate AdminReady(users: map<Id, User>, roles: map<Id, Role>) {
    exists k :: k in users && AdminOk(users[k], roles)
  }

  ghost predicate AdminOk(u: User, roles: map<Id, Role>) {
    u.username == AdminUsername && u.roleId in roles && roles[u.roleId].name == SuperAdminRole
    && AdminConfigured(u, u.roleId)
  }

  /** Every account other than `admin` is kept as it was. */
  ghost predicate OthersKept(before: map<Id, User>, after: map<Id, User>) {
    forall k :: k in before && before[k].username != AdminUsername ==> k in after && after[k] == before[k]
  }

  ghost predicate AdminExists(users: map<Id, User>) {
    exists k :: k in users && users[k].username == AdminUsername
  }

  /** Lines 41-74: the admin found by username is repaired in place. */
  method RepairExisting(db: Db, id: Id, superAdminId: Id)
    requires db.Valid() && id in db.users && db.users[id].username == AdminUsername
    requires superAdminId in db.roles && db.roles[superAdminId].name == SuperAdminRole
    modifies db`users
    ensures db.Valid()
    ensures AdminReady(db.users, db.roles)
    ensures OthersKept(old(db.users), db.users) && db.users.Keys == old(db.users).Keys
    ensures AdminReady(old(db.users), db.roles) ==> db.users == old(db.users)
  {
    ReadyAdminUnchanged(db.users, db.roles, db.nextId, id, superAdminId);
    RepairedReady(db.users, db.roles, id, superAdminId);
    RepairAdmin(db, id, superAdminId);
  }

  /** Lines 75-124: no admin yet, so the three accounts are created. */
  method CreateFirst(db: Db, ids: map<string, Id>, now: int) returns (r: Result<()>)
    requires db.Valid() && Mapped(db.roles, ids, SuperAdminRole) && Mapped(db.roles, ids, "USER")
    modifies db`users, db`nextId
    ensures db.Valid()
    ensures Kept(old(db.users), db.users)
    ensures AdminFree(old(db.users)) && DemoFree(old(db.users)) ==> r.Ok?
    ensures r.Ok? ==> AdminReady(db.users, db.roles) && |db.users.Keys - old(db.users).Keys| == 3
  {
    var created := CreateAccounts(db, ids, now);
    if created.Err? {
      return Err(created.error);
    }
    var (a, u, s) := created.value;
    FirstRunShape(old(db.users), db.roles, old(db.nextId), ids, a, u, s, now);
    r := Ok(());
  }

  /** Lines 36-124: repair an existing admin, or create the three accounts. */
  method SeedAccounts(db: Db, ids: map<string, Id>, now: int) returns (r: Result<()>)
    requires db.Valid() && Mapped(db.roles, ids, SuperAdminRole) && Mapped(db.roles, ids, "USER")
    modifies db`users, db`nextId
    ensures db.Valid()
    ensures r.Ok? ==> AdminReady(db.users, db.roles)
    ensures OthersKept(old(db.users), db.users)
    ensures AdminExists(old(db.users)) ==> r.Ok? && db.users.Keys == old(db.users).Keys
    ensures AdminFree(old(db.users)) && DemoFree(old(db.users)) ==> r.Ok?
    ensures !AdminExists(old(db.users)) && r.Ok? ==> |db.users.Keys - old(db.users).Keys| == 3
    ensures AdminReady(old(db.users), db.roles) ==> db.users == old(db.users) && db.nextId == old(db.nextId)
  {
    var existing := UserWithUsername(db.users, db.nextId, AdminUsername);
    if existing.Some? {
      RepairExisting(db, existing.value.id, ids[SuperAdminRole]);
      r := Ok(());
    } else {
      assert !AdminExists(db.users) && !AdminReady(db.users, db.roles);
      r := CreateFirst(db, ids, now);
    }
  }

  /** The whole script. On success the store is seeded; an existing admin
      means no account is created; a first run creates exactly three
      accounts; and a store that is already seeded is left as it was, so a
      second run changes nothing. */
  method RunSeed(db: Db, now: int) returns (r: Result<()>)
    requires db.Valid()
    modifies db`roles, db`users, db`nextId
    ensures db.Valid()
    ensures r.Ok? ==> Seeded(db)
    ensures OthersKept(old(db.users), db.users)
    ensures Kept(old(db.roles), db.roles) && OnlySeededAdded(old(db.roles), db.roles)
    ensures AdminExists(old(db.users)) ==> r.Ok? && db.users.Keys == old(db.users).Keys
    ensures AdminFree(old(db.users)) && DemoFree(old(db.users)) ==> r.Ok?
    ensures !AdminExists(old(db.users)) && r.Ok? ==> |db.users.Keys - old(db.users).Keys| == 3
    ensures old(Seeded(db)) ==> db.users == old(db.users) && db.roles == old(db.roles) && db.nextId == old(db.nextId)
  {
    var ids := EnsureRoles(db);
    r := SeedAccounts(db, ids, now);
    SeededRoles(db.roles, ids);
  }

  /** A row created by `SeedUser` with the admin identity and the
      SUPER_ADMIN role makes the admin ready. */
  lemma SeededAdminReady(users: map<Id, User>, roles: map<Id, Role>, a: Id)
    requires a in users && users[a].username == AdminUsername && users[a].status == ACTIVE
    requires users[a].password == Hash(AdminPassword)
    requires users[a].roleId in roles && roles[users[a].roleId].name == SuperAdminRole
    ensures AdminReady(users, roles)
  {
    assert AdminOk(users[a], roles);
  }

  /** A first run adds exactly the three accounts, and the admin among
      them is ready. */
  lemma FirstRunShape(before: map<Id, User>, roles: map<Id, Role>, bound: nat, ids: map<string, Id>,
                      a: Id, u: Id, s: Id, now: int)
    requires forall k :: k in before ==> k < bound
    requires bound <= a < u < s && Mapped(roles, ids, SuperAdminRole) && Mapped(roles, ids, "USER")
    ensures var after := before
           [a := SeedUser(a, AdminUsername, "admin@example.com", "Admin", ids[SuperAdminRole], now)]
           [u := SeedUser(u, "user", "user@example.com", "User", ids["USER"], now)]
           [s := SeedUser(s, "superadmin", "superadmin@example.com", "Super Admin", ids[SuperAdminRole], now)];
            AdminReady(after, roles) && |after.Keys - before.Keys| == 3
  {
    var after := before
           [a := SeedUser(a, AdminUsername, "admin@example.com", "Admin", ids[SuperAdminRole], now)]
           [u := SeedUser(u, "user", "user@example.com", "User", ids["USER"], now)]
           [s := SeedUser(s, "superadmin", "superadmin@example.com", "Super Admin", ids[SuperAdminRole], now)];
    ThreeAdded(before.Keys, after.Keys, a, u, s);
    SeededAdminReady(after, roles, a);
  }

  lemma KeptTransitive<T>(a: map<Id, T>, b: map<Id, T>, c: map<Id, T>)
    requires Kept(a, b) && Kept(b, c)
    ensures Kept(a, c)
  {
  }

  lemma ThreeAdded(before: set<Id>, after: set<Id>, a: Id, u: Id, s: Id)
    requires a < u < s && a !in before && u !in before && s !in before
    requires after == before + {a, u, s}
    ensures |after - before| == 3
  {
    assert after - before == {a, u, s};
  }

  /** Once an admin is configured, the admin found by username is that one
      and needs no repair. */
  lemma ReadyAdminUnchanged(users: map<Id, User>, roles: map<Id, Role>, bound: nat, id: Id, superAdminId: Id)
    requires UsersValid(users, roles, bound) && RolesValid(roles, bound)
    requires id in users && users[id].username == AdminUsername
    requires superAdminId in roles && roles[superAdminId].name == SuperAdminRole
    ensures AdminReady(users, roles) ==> Repaired(users[id], superAdminId) == users[id]
  {
    if AdminReady(users, roles) {
      var k :| k in users && AdminOk(users[k], roles);
      assert k == id;
    }
  }

  /** The repaired admin is configured. */
  lemma RepairedReady(users: map<Id, User>, roles: map<Id, Role>, id: Id, superAdminId: Id)
    requires id in users && users[id].username == AdminUsername
    requires superAdminId in roles && roles[superAdminId].name == SuperAdminRole
    ensures AdminReady(users[id := Repaired(users[id], superAdminId)], roles)
  {
    var after := users[id := Repaired(users[id], superAdminId)];
    assert AdminOk(after[id], roles);
  }

  lemma SeededRoles(roles: map<Id, Role>, ids: map<string, Id>)
    requires forall j :: 0 <= j < |Specs| ==> Mapped(roles, ids, Specs[j].name)
    ensures AllRolesPresent(roles)
  {
    forall j | 0 <= j < |Specs| ensures Users.HasRoleNamed(roles, Specs[j].name) {
      assert Mapped(roles, ids, Specs[j].name);
    }
  }

  /** The rows carrying a given role name. */
  function RowsNamed(roles: map<Id, Role>, name: string): set<Id> {
    set k | k in roles && roles[k].name == name
  }

  /** In a seeded store each seeded role exists exactly once: names are
      unique, and every seeded name has a row. */
  lemma {:induction false} RolesOnce(roles: map<Id, Role>, bound: nat, name: string)
    requires RolesValid(roles, bound) && Users.HasRoleNamed(roles, name)
    ensures |RowsNamed(roles, name)| == 1
  {
    var k :| k in roles && roles[k].name == name;
    assert RowsNamed(roles, name) == {k};
  }
}
