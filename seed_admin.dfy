/** The stand-alone admin script (backend/src/scripts/seed-admin.ts): the
    same role loop and admin repair as the seed, but on a first run only the
    `admin` account is created. */
module SeedAdmin {
  import opened Common
  import opened Entities
  import opened Store
  import opened Seed

  /** Lines 76-97: the admin account alone. */
  method CreateAdmin(db: Db, ids: map<string, Id>, now: int) returns (r: Result<()>)
    requires db.Valid() && Mapped(db.roles, ids, SuperAdminRole)
    modifies db`users, db`nextId
    ensures db.Valid()
    ensures Kept(old(db.users), db.users)
    ensures r.Err? ==> db.users == old(db.users)
    ensures AdminFree(old(db.users)) ==> r.Ok?
    ensures r.Ok? ==> AdminReady(db.users, db.roles)
    ensures forall k :: k in db.users && k !in old(db.users) ==> db.users[k].username == AdminUsername
  {
    var admin := CreateSeedUser(db, AdminUsername, "admin@example.com", "Admin", ids[SuperAdminRole], now);
    if admin.Err? {
      return Err(admin.error);
    }
    SeededAdminReady(db.users, db.roles, admin.value);
    r := Ok(());
  }

  /** Lines 36-97: repair an existing admin, or create it. */
  method SeedAdminAccount(db: Db, ids: map<string, Id>, now: int) returns (r: Result<()>)
    requires db.Valid() && Mapped(db.roles, ids, SuperAdminRole)
    modifies db`users, db`nextId
    ensures db.Valid()
    ensures r.Ok? ==> AdminReady(db.users, db.roles)
    ensures OthersKept(old(db.users), db.users)
    ensures forall k :: k in db.users && k !in old(db.users) ==> db.users[k].username == AdminUsername
    ensures AdminExists(old(db.users)) ==> r.Ok? && db.users.Keys == old(db.users).Keys
    ensures AdminFree(old(db.users)) ==> r.Ok?
    ensures AdminReady(old(db.users), db.roles) ==> db.users == old(db.users) && db.nextId == old(db.nextId)
  {
    var existing := UserWithUsername(db.users, db.nextId, AdminUsername);
    if existing.Some? {
      RepairExisting(db, existing.value.id, ids[SuperAdminRole]);
      r := Ok(());
    } else {
      assert !AdminExists(db.users) && !AdminReady(db.users, db.roles);
      r := CreateAdmin(db, ids, now);
    }
  }

  /** The whole script. On success the store is seeded; no account other
      than `admin` is ever created; an admin that already exists is repaired
      in place; and a store that is already seeded is left as it was. */
  method SeedAdminScript(db: Db, now: int) returns (r: Result<()>)
    requires db.Valid()
    modifies db`roles, db`users, db`nextId
    ensures db.Valid()
    ensures r.Ok? ==> Seeded(db)
    ensures OthersKept(old(db.users), db.users)
    ensures forall k :: k in db.users && k !in old(db.users) ==> db.users[k].username == AdminUsername
    ensures |db.users.Keys - old(db.users).Keys| <= 1
    ensures Kept(old(db.roles), db.roles) && OnlySeededAdded(old(db.roles), db.roles)
    ensures AdminExists(old(db.users)) ==> r.Ok? && db.users.Keys == old(db.users).Keys
    ensures AdminFree(old(db.users)) ==> r.Ok?
    ensures old(Seeded(db)) ==> db.users == old(db.users) && db.roles == old(db.roles) && db.nextId == old(db.nextId)
  {
    var ids := EnsureRoles(db);
    r := SeedAdminAccount(db, ids, now);
    SeededRoles(db.roles, ids);
    AtMostOneAdded(old(db.users), db.users, db.roles, db.nextId);
  }

  /** Usernames are unique, so at most one new account can be named `admin`. */
  lemma AtMostOneAdded(before: map<Id, User>, after: map<Id, User>, roles: map<Id, Role>, bound: nat)
    requires UsersValid(after, roles, bound)
    requires forall k :: k in after && k !in before ==> after[k].username == AdminUsername
    ensures |after.Keys - before.Keys| <= 1
  {
    var added := after.Keys - before.Keys;
    if added != {} {
      var a :| a in added;
      forall b | b in added ensures b == a {
        assert after[a].username == after[b].username;
      }
      SubsetCard(added, {a});
    }
  }
}
