/** The database the services share (the `PrismaService`), as one object
    whose tables are maps from identifiers to rows. The unique constraints
    the services rely on are stated by `Valid`. */
module Store {
  import opened Common
  import opened Entities
  import opened Ordering

  /** The rows of a table in identifier order: the order the model uses for
      queries without `orderBy`. */
  function Rows<T(==)>(m: map<Id, T>, bound: nat): (r: seq<T>)
    ensures forall k :: k in m && k < bound ==> m[k] in r
    ensures forall i :: 0 <= i < |r| ==> r[i] in m.Values
    decreases bound
  {
    if bound == 0 then []
    else
      var prefix := Rows(m, bound - 1);
      var r := prefix + (if bound - 1 in m then [m[bound - 1]] else []);
      assert forall i :: 0 <= i < |prefix| ==> r[i] == prefix[i];
      r
  }

  /** Every row listed by `Rows(m, bound)` is the row of a key below `bound`. */
  lemma {:induction false} RowKey<T>(m: map<Id, T>, bound: nat, i: nat) returns (k: Id)
    requires i < |Rows(m, bound)|
    ensures k in m && k < bound && Rows(m, bound)[i] == m[k]
    decreases bound
  {
    var b := bound - 1;
    var prefix := Rows(m, b);
    assert Rows(m, bound) == prefix + (if b in m then [m[b]] else []);
    if i < |prefix| {
      k := RowKey(m, b, i);
    } else {
      k := b;
    }
  }

  /** A table whose rows are all different lists no row twice. */
  lemma {:induction false} RowsDistinct<T>(m: map<Id, T>, bound: nat)
    ensures (forall a, b :: a in m && b in m && m[a] == m[b] ==> a == b) ==> Distinct(Rows(m, bound))
    decreases bound
  {
    if bound > 0 && forall a, b :: a in m && b in m && m[a] == m[b] ==> a == b {
      var b := bound - 1;
      RowsDistinct(m, b);
      var prefix := Rows(m, b);
      if b in m {
        forall i | 0 <= i < |prefix| ensures prefix[i] != m[b] {
          var k := RowKey(m, b, i);
        }
      }
    }
  }

  /** A sub-filter counts no more rows than the filter it narrows. */
  lemma SubsetCard<T>(a: set<T>, b: set<T>)
    requires a <= b
    ensures |a| <= |b|
  {
    assert b == a + (b - a);
  }

  function KeysBelow<T>(m: map<Id, T>, bound: nat): set<Id> {
    set k | k in m && k < bound
  }

  /** A table whose keys are all below `bound` lists exactly one row per key. */
  lemma {:induction false} RowsCount<T>(m: map<Id, T>, bound: nat)
    ensures |Rows(m, bound)| == |KeysBelow(m, bound)|
    decreases bound
  {
    if bound > 0 {
      RowsCount(m, bound - 1);
      if bound - 1 in m {
        assert KeysBelow(m, bound) == KeysBelow(m, bound - 1) + {bound - 1};
      } else {
        assert KeysBelow(m, bound) == KeysBelow(m, bound - 1);
      }
    }
  }

  lemma RowsCountAll<T>(m: map<Id, T>, bound: nat)
    requires forall k :: k in m ==> k < bound
    ensures |Rows(m, bound)| == |m|
  {
    RowsCount(m, bound);
    assert KeysBelow(m, bound) == m.Keys;
  }

  /** `findFirst`: the first row, in identifier order, that matches. */
  function First<T>(s: seq<T>, p: T -> bool): (r: Option<T>)
    ensures r.Some? ==> r.value in s && p(r.value)
    ensures r.None? ==> forall i :: 0 <= i < |s| ==> !p(s[i])
  {
    if s == [] then None
    else if p(s[0]) then Some(s[0])
    else First(s[1..], p)
  }

  /** The rows a `where` clause keeps are as many as the matching keys: what
      `count({ where })` counts. */
  lemma {:induction false} FilterRowsCount<T>(m: map<Id, T>, bound: nat, p: T -> bool)
    ensures |Filter(Rows(m, bound), p)| == |set k | k in m && k < bound && p(m[k])|
    decreases bound
  {
    if bound > 0 {
      var b := bound - 1;
      FilterRowsCount(m, b, p);
      var tail := if b in m then [m[b]] else [];
      assert Rows(m, bound) == Rows(m, b) + tail;
      FilterAppend(Rows(m, b), tail, p);
      MatchingKeysSplit(m, bound, p);
      if b in m && p(m[b]) {
        assert Filter(tail, p) == [m[b]];
      } else {
        assert |Filter(tail, p)| == 0;
      }
    }
  }

  lemma MatchingKeysSplit<T>(m: map<Id, T>, bound: nat, p: T -> bool)
    requires bound > 0
    ensures var b := bound - 1;
      var before := set k | k in m && k < b && p(m[k]);
      |set k | k in m && k < bound && p(m[k])| == |before| + (if b in m && p(m[b]) then 1 else 0)
  {
    var b := bound - 1;
    var before := set k | k in m && k < b && p(m[k]);
    var after := set k | k in m && k < bound && p(m[k]);
    if b in m && p(m[b]) {
      assert after == before + {b};
    } else {
      assert after == before;
    }
  }

  /** The keys below `bound` whose rows satisfy `p`. */
  function MatchingKeys<T>(m: map<Id, T>, bound: nat, p: T -> bool): set<Id> {
    set k | k in m && k < bound && p(m[k])
  }

  /** `findMany({ where })` on a table: the matching rows in identifier
      order, as many as there are matching keys. */
  function Where<T(==)>(m: map<Id, T>, bound: nat, p: T -> bool): (r: seq<T>)
    ensures forall i :: 0 <= i < |r| ==> r[i] in m.Values && p(r[i])
    ensures forall k :: k in m && k < bound && p(m[k]) ==> m[k] in r
    ensures |r| == |MatchingKeys(m, bound, p)|
    ensures (forall a, b :: a in m && b in m && m[a] == m[b] ==> a == b) ==> Distinct(r)
  {
    var rows := Rows(m, bound);
    var r := Filter(rows, p);
    FilterRowsCount(m, bound, p);
    RowsDistinct(m, bound);
    FilterDistinct(rows, p);
    forall i | 0 <= i < |r| ensures r[i] in m.Values {
      var j :| 0 <= j < |rows| && rows[j] == r[i];
    }
    forall k | k in m && k < bound && p(m[k]) ensures m[k] in r {
      var j :| 0 <= j < |rows| && rows[j] == m[k];
    }
    r
  }

  /** `findMany({ where, orderBy: { key: 'desc' }, take })` on a table: the
      `take` matching rows with the largest keys, largest first. */
  function NewestWhere<T(==,!new)>(m: map<Id, T>, bound: nat, p: T -> bool, key: T -> int, take: nat): (r: seq<T>)
    requires forall k :: k in m ==> k < bound
    ensures var n := |MatchingKeys(m, bound, p)|; |r| == if take < n then take else n
    ensures Descending(r, key)
    ensures forall x :: x in r ==> x in m.Values && p(x)
    ensures forall k, i :: k in m && p(m[k]) && m[k] !in r && 0 <= i < |r| ==> key(m[k]) <= key(r[i])
    ensures (forall a, b :: a in m && b in m && m[a] == m[b] ==> a == b) ==> Distinct(r)
  {
    var kept := Where(m, bound, p);
    var r := Newest(kept, key, take);
    forall x | x in r ensures x in m.Values && p(x) {
      var i :| 0 <= i < |kept| && kept[i] == x;
    }
    forall k, i | k in m && p(m[k]) && m[k] !in r && 0 <= i < |r| ensures key(m[k]) <= key(r[i]) {
      assert m[k] in kept;
    }
    r
  }

  /** `findFirst({ where })` on a table: the first matching row in identifier order. */
  function FirstRow<T(==)>(m: map<Id, T>, bound: nat, p: T -> bool): (r: Option<T>)
    ensures r.Some? ==> r.value in m.Values && p(r.value)
    ensures r.None? ==> forall k :: k in m && k < bound ==> !p(m[k])
  {
    var rows := Rows(m, bound);
    var r := First(rows, p);
    assert r.None? ==> forall k :: k in m && k < bound ==> !p(m[k]) by {
      if r.None? {
        forall k | k in m && k < bound ensures !p(m[k]) {
          assert m[k] in rows;
        }
      }
    }
    r
  }

  class Db {
    var users: map<Id, User>
    var roles: map<Id, Role>
    var companies: map<Id, Company>
    var contracts: map<Id, Contract>
    var notifications: map<Id, Notification>
    var apiKeys: map<Id, ApiKey>
    var settings: seq<Setting>
    var applications: map<Id, Application>
    var devices: map<Id, Device>
    var gateways: map<Id, Gateway>
    var frames: map<Id, Frame>
    /** The next identifier the store hands out (stands for a fresh uuid). */
    var nextId: Id

    /** The schema's keys, unique constraints and foreign keys. */
    ghost predicate Valid()
      reads this
    {
      && UsersValid(users, roles, nextId)
      && UserCompaniesValid(users, companies)
      && OwnersValid(notifications, apiKeys, users)
      && CompanyChildrenValid(contracts, applications, companies)
      && NetworkRefsValid(applications, devices, gateways, frames)
      && RolesValid(roles, nextId)
      && CompaniesValid(companies, nextId)
      && ContractsValid(contracts, nextId)
      && NotificationsValid(notifications, nextId)
      && ApiKeysValid(apiKeys, nextId)
      && NetworkValid(applications, devices, gateways, frames, nextId)
      && SettingKeysUnique(settings)
    }

    constructor ()
      ensures Valid()
      ensures users == map[] && roles == map[] && companies == map[] && contracts == map[]
      ensures notifications == map[] && apiKeys == map[] && settings == []
      ensures applications == map[] && devices == map[] && gateways == map[] && frames == map[]
    {
      users, roles, companies, contracts := map[], map[], map[], map[];
      notifications, apiKeys, settings := map[], map[], [];
      applications, devices, gateways, frames := map[], map[], map[], map[];
      nextId := 0;
    }

    /** A fresh identifier, unused in every table. */
    method FreshId() returns (id: Id)
      requires Valid()
      modifies this`nextId
      ensures Valid()
      ensures id == old(nextId) && nextId == id + 1
      ensures id !in users && id !in roles && id !in companies && id !in contracts
      ensures id !in notifications && id !in apiKeys
    {
      id := nextId;
      nextId := nextId + 1;
    }

    /** Writes the user and API key tables together; the new tables must keep
        their own constraints, and every other table is untouched. */
    method SetUsersAndApiKeys(u: map<Id, User>, a: map<Id, ApiKey>)
      requires Valid()
      requires UsersValid(u, roles, nextId) && UserCompaniesValid(u, companies)
      requires OwnersValid(notifications, a, u) && ApiKeysValid(a, nextId)
      modifies this`users, this`apiKeys
      ensures Valid() && users == u && apiKeys == a
    {
      users, apiKeys := u, a;
    }

    /** Writes the notification table; the new table must keep its own
        constraints, and every other table is untouched. */
    method SetNotifications(n: map<Id, Notification>)
      requires Valid()
      requires OwnersValid(n, apiKeys, users) && NotificationsValid(n, nextId)
      modifies this`notifications
      ensures Valid() && notifications == n
    {
      notifications := n;
      assert OwnersValid(notifications, apiKeys, users) && NotificationsValid(notifications, nextId);
    }

    function UserRows(): seq<User> reads this { Rows(users, nextId) }
    function RoleRows(): seq<Role> reads this { Rows(roles, nextId) }
    function CompanyRows(): seq<Company> reads this { Rows(companies, nextId) }
  }

  ghost predicate UsersValid(users: map<Id, User>, roles: map<Id, Role>, bound: nat) {
    && (forall k :: k in users ==> users[k].id == k && k < bound && users[k].roleId in roles)
    && (forall a, b :: a in users && b in users && a != b ==>
          && users[a].username != users[b].username
          && users[a].email != users[b].email
          && (users[a].activationToken.Some? ==> users[a].activationToken != users[b].activationToken))
  }

  ghost predicate RolesValid(roles: map<Id, Role>, bound: nat) {
    && (forall k :: k in roles ==> roles[k].id == k && k < bound)
    && (forall a, b :: a in roles && b in roles && a != b ==> roles[a].name != roles[b].name)
  }

  ghost predicate CompaniesValid(companies: map<Id, Company>, bound: nat) {
    && (forall k :: k in companies ==> companies[k].id == k && k < bound)
    && (forall a, b :: a in companies && b in companies && a != b ==> companies[a].name != companies[b].name)
  }

  ghost predicate ContractsValid(contracts: map<Id, Contract>, bound: nat) {
    forall k :: k in contracts ==> contracts[k].id == k && k < bound
  }

  ghost predicate NotificationsValid(notifications: map<Id, Notification>, bound: nat) {
    forall k :: k in notifications ==> notifications[k].id == k && k < bound
  }

  ghost predicate ApiKeysValid(apiKeys: map<Id, ApiKey>, bound: nat) {
    forall k :: k in apiKeys ==> apiKeys[k].id == k && k < bound
  }

  ghost predicate NetworkValid(applications: map<Id, Application>, devices: map<Id, Device>,
                               gateways: map<Id, Gateway>, frames: map<Id, Frame>, bound: nat) {
    && (forall k :: k in applications ==> applications[k].id == k && k < bound)
    && (forall k :: k in devices ==> devices[k].id == k && k < bound)
    && (forall k :: k in gateways ==> gateways[k].id == k && k < bound)
    && (forall k :: k in frames ==> frames[k].id == k && k < bound)
  }

  // Foreign keys. The referential actions are Prisma's defaults: a required
  // relation refuses the delete of a referenced row (Restrict), an optional
  // one clears the reference (SetNull).

  /** `User.company` (optional). */
  ghost predicate UserCompaniesValid(users: map<Id, User>, companies: map<Id, Company>) {
    forall k :: k in users && users[k].companyId.Some? ==> users[k].companyId.value in companies
  }

  /** `Notification.user` (required) and `ApiKey.user` (optional). */
  ghost predicate OwnersValid(notifications: map<Id, Notification>, apiKeys: map<Id, ApiKey>, users: map<Id, User>) {
    && (forall k :: k in notifications ==> notifications[k].userId in users)
    && (forall k :: k in apiKeys && apiKeys[k].userId.Some? ==> apiKeys[k].userId.value in users)
  }

  /** `Contract.company` and `Application.company` (both required). */
  ghost predicate CompanyChildrenValid(contracts: map<Id, Contract>, applications: map<Id, Application>,
                                       companies: map<Id, Company>) {
    && (forall k :: k in contracts ==> contracts[k].companyId in companies)
    && (forall k :: k in applications ==> applications[k].companyId in companies)
  }

  /** `Device.application` (required), `Frame.device` and `Frame.gateway` (optional). */
  ghost predicate NetworkRefsValid(applications: map<Id, Application>, devices: map<Id, Device>,
                                   gateways: map<Id, Gateway>, frames: map<Id, Frame>) {
    && (forall k :: k in devices ==> devices[k].applicationId in applications)
    && (forall k :: k in frames && frames[k].deviceId.Some? ==> frames[k].deviceId.value in devices)
    && (forall k :: k in frames && frames[k].gatewayId.Some? ==> frames[k].gatewayId.value in gateways)
  }

  /** Rewriting notifications without changing their owners keeps the foreign keys. */
  lemma SameOwnersValid(before: map<Id, Notification>, after: map<Id, Notification>,
                        apiKeys: map<Id, ApiKey>, users: map<Id, User>)
    requires OwnersValid(before, apiKeys, users)
    requires forall k :: k in after ==> k in before && after[k].userId == before[k].userId
    ensures OwnersValid(after, apiKeys, users)
  {
  }

  /** The API keys once their owner is deleted: `ApiKey.user` is optional,
      so the keys stay and lose their owner. */
  function Disowned(apiKeys: map<Id, ApiKey>, id: Id): (r: map<Id, ApiKey>)
    ensures r.Keys == apiKeys.Keys
    ensures forall k :: k in r ==> r[k].userId != Some(id)
    ensures forall k :: k in r && apiKeys[k].userId != Some(id) ==> r[k] == apiKeys[k]
    ensures forall k :: k in r && apiKeys[k].userId == Some(id) ==> r[k] == apiKeys[k].(userId := None)
  {
    map k | k in apiKeys :: if apiKeys[k].userId == Some(id) then apiKeys[k].(userId := None) else apiKeys[k]
  }

  /** Deleting a user that owns no notification keeps the constraints once
      its API keys are disowned. */
  lemma RemoveUserValid(users: map<Id, User>, roles: map<Id, Role>, bound: nat, companies: map<Id, Company>,
                        notifications: map<Id, Notification>, apiKeys: map<Id, ApiKey>, id: Id)
    requires UsersValid(users, roles, bound) && UserCompaniesValid(users, companies)
    requires OwnersValid(notifications, apiKeys, users) && ApiKeysValid(apiKeys, bound)
    requires forall k :: k in notifications ==> notifications[k].userId != id
    ensures UsersValid(users - {id}, roles, bound) && UserCompaniesValid(users - {id}, companies)
    ensures OwnersValid(notifications, Disowned(apiKeys, id), users - {id})
    ensures ApiKeysValid(Disowned(apiKeys, id), bound)
  {
  }

  /** The users once their company is deleted: `User.company` is optional,
      so they stay and lose their company. */
  function Detached(users: map<Id, User>, id: Id): (r: map<Id, User>)
    ensures r.Keys == users.Keys
    ensures forall k :: k in r ==> r[k].companyId != Some(id)
    ensures forall k :: k in r && users[k].companyId != Some(id) ==> r[k] == users[k]
    ensures forall k :: k in r && users[k].companyId == Some(id) ==> r[k] == users[k].(companyId := None)
  {
    map k | k in users :: if users[k].companyId == Some(id) then users[k].(companyId := None) else users[k]
  }

  /** Deleting a company that no contract and no application references
      keeps the constraints once its users are detached. */
  lemma RemoveCompanyValid(users: map<Id, User>, roles: map<Id, Role>, bound: nat, companies: map<Id, Company>,
                           contracts: map<Id, Contract>, applications: map<Id, Application>,
                           notifications: map<Id, Notification>, apiKeys: map<Id, ApiKey>, id: Id)
    requires UsersValid(users, roles, bound) && UserCompaniesValid(users, companies)
    requires OwnersValid(notifications, apiKeys, users) && CompanyChildrenValid(contracts, applications, companies)
    requires CompaniesValid(companies, bound)
    requires forall k :: k in contracts ==> contracts[k].companyId != id
    requires forall k :: k in applications ==> applications[k].companyId != id
    ensures UsersValid(Detached(users, id), roles, bound)
    ensures UserCompaniesValid(Detached(users, id), companies - {id})
    ensures OwnersValid(notifications, apiKeys, Detached(users, id))
    ensures CompanyChildrenValid(contracts, applications, companies - {id})
    ensures CompaniesValid(companies - {id}, bound)
  {
    var after := Detached(users, id);
    forall a, b | a in after && b in after && a != b
      ensures && after[a].username != after[b].username
              && after[a].email != after[b].email
              && (after[a].activationToken.Some? ==> after[a].activationToken != after[b].activationToken)
    {
      assert after[a].username == users[a].username && after[b].username == users[b].username;
      assert after[a].email == users[a].email && after[b].email == users[b].email;
      assert after[a].activationToken == users[a].activationToken;
      assert after[b].activationToken == users[b].activationToken;
    }
  }

  /** Storing a notification of a known user under a fresh key keeps the constraints. */
  lemma AddNotificationValid(notifications: map<Id, Notification>, apiKeys: map<Id, ApiKey>,
                             users: map<Id, User>, bound: nat, n: Notification)
    requires NotificationsValid(notifications, bound) && OwnersValid(notifications, apiKeys, users)
    requires n.id < bound && n.userId in users
    ensures NotificationsValid(notifications[n.id := n], bound)
    ensures OwnersValid(notifications[n.id := n], apiKeys, users)
  {
  }

  /** Adding a user who shares no username, email or token keeps the constraints. */
  lemma AddUserValid(users: map<Id, User>, roles: map<Id, Role>, bound: nat, u: User)
    requires UsersValid(users, roles, bound)
    requires u.id !in users && u.id < bound && u.roleId in roles
    requires forall k :: k in users ==> users[k].username != u.username && users[k].email != u.email
    requires u.activationToken.Some? ==> forall k :: k in users ==> users[k].activationToken != u.activationToken
    ensures UsersValid(users[u.id := u], roles, bound)
  {
  }

  /** Rewriting a user so that it clashes with no other user keeps the constraints. */
  lemma ReplaceUserValid(users: map<Id, User>, roles: map<Id, Role>, bound: nat, u: User)
    requires UsersValid(users, roles, bound)
    requires u.id in users && u.roleId in roles
    requires forall k :: k in users && k != u.id ==> users[k].username != u.username && users[k].email != u.email
    requires u.activationToken.Some? ==>
               forall k :: k in users && k != u.id ==> users[k].activationToken != u.activationToken
    ensures UsersValid(users[u.id := u], roles, bound)
  {
  }

  /** Rewriting a user's other columns keeps the constraints. */
  lemma SameIdentityValid(users: map<Id, User>, roles: map<Id, Role>, bound: nat, u: User)
    requires UsersValid(users, roles, bound) && u.id in users
    requires users[u.id].username == u.username && users[u.id].email == u.email
    requires users[u.id].activationToken == u.activationToken && users[u.id].roleId == u.roleId
    ensures UsersValid(users[u.id := u], roles, bound)
  {
  }

  ghost predicate SettingKeysUnique(rows: seq<Setting>) {
    forall i, j :: 0 <= i < j < |rows| ==> rows[i].key != rows[j].key
  }

  // -----------------------------------------------------------------------
  // Unique lookups shared by the services.
  // -----------------------------------------------------------------------

  /** The role with a given name (`role.findFirst/findUnique({ where: { name } })`). */
  function RoleNamed(roles: map<Id, Role>, bound: nat, name: string): (r: Option<Role>)
    ensures r.Some? ==> r.value.name == name && r.value in roles.Values
    ensures r.None? ==> forall k :: k in roles && k < bound ==> roles[k].name != name
  {
    FirstRow(roles, bound, (x: Role) => x.name == name)
  }

  /** The company with a given name (`company.findUnique({ where: { name } })`). */
  function CompanyNamed(companies: map<Id, Company>, bound: nat, name: string): (r: Option<Company>)
    ensures r.Some? ==> r.value.name == name && r.value in companies.Values
    ensures r.None? ==> forall k :: k in companies && k < bound ==> companies[k].name != name
  {
    FirstRow(companies, bound, (c: Company) => c.name == name)
  }

  /** The user with a given email (`user.findFirst({ where: { email } })`). */
  function UserWithEmail(users: map<Id, User>, bound: nat, email: string): (r: Option<User>)
    ensures r.Some? ==> r.value.email == email && r.value in users.Values
    ensures r.None? ==> forall k :: k in users && k < bound ==> users[k].email != email
  {
    FirstRow(users, bound, (u: User) => u.email == email)
  }

  /** The user with a given username (`user.findUnique({ where: { username } })`). */
  function UserWithUsername(users: map<Id, User>, bound: nat, username: string): (r: Option<User>)
    ensures r.Some? ==> r.value.username == username && r.value in users.Values
    ensures r.None? ==> forall k :: k in users && k < bound ==> users[k].username != username
  {
    FirstRow(users, bound, (u: User) => u.username == username)
  }
}
