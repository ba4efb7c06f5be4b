/** The older account service of backend/src/users/users.service.ts, written
    against a TypeORM repository. Role and status are columns of the user row
    rather than relations, the company is a plain string, and a user created
    by `requestAccess` has no password until activation. The repository and
    its rows are the fields of one service object. */
module LegacyUsers {
  import opened Common
  import opened Entities
  import opened Store
  import Users

  /** The `UserRole` enumeration of the entity. */
  datatype LegacyRole = SUPER_ADMIN | ADMIN | USER

  /** The entity's status values as stored; the JWT strategy compares them
      with the literal 'active'. The entity file is not part of this model:
      the lower-case values are an assumption. */
  function StatusText(s: UserStatus): (t: string)
    ensures t == "active" <==> s == ACTIVE
  {
    match s
    case PENDING => "pending"
    case ACTIVE => "active"
    case INACTIVE => "inactive"
    case REJECTED => "rejected"
  }

  datatype LegacyUser = LegacyUser(
    id: Id,
    username: string,
    email: string,
    password: Option<PasswordHash>,
    firstName: Option<string>,
    lastName: Option<string>,
    company: Option<string>,
    role: LegacyRole,
    status: UserStatus,
    phone: Option<string>,
    usageDescription: Option<string>,
    activationToken: Option<string>,
    activationTokenExpires: Option<int>,
    lastLogin: Option<int>,
    createdAt: int)

  datatype CreateUserDto = CreateUserDto(
    username: string,
    email: string,
    password: string,
    firstName: Option<string>,
    lastName: Option<string>,
    company: Option<string>,
    role: Option<LegacyRole>,
    status: Option<UserStatus>,
    phone: Option<string>,
    usageDescription: Option<string>)

  datatype UpdateUserDto = UpdateUserDto(
    username: Option<string>,
    email: Option<string>,
    password: Option<string>,
    firstName: Option<string>,
    lastName: Option<string>,
    company: Option<string>,
    role: Option<LegacyRole>,
    status: Option<UserStatus>,
    phone: Option<string>,
    usageDescription: Option<string>)

  datatype RequestAccessDto = RequestAccessDto(
    firstName: string,
    lastName: string,
    email: string,
    company: string,
    phone: Option<string>,
    usageDescription: string)

  /** The columns `findOne` selects: no password, no activation token. */
  function Selected(u: LegacyUser): (v: LegacyUser)
    ensures v.password.None? && v.activationToken.None? && v.activationTokenExpires.None?
    ensures v.id == u.id && v.username == u.username && v.email == u.email
    ensures v.role == u.role && v.status == u.status && v.company == u.company
  {
    u.(password := None, activationToken := None, activationTokenExpires := None)
  }

  /** The columns `findByUsername` selects: the password hash, and neither
      the activation token nor its expiry. */
  function Credentials(u: LegacyUser): (v: LegacyUser)
    ensures v.password == u.password && v.activationToken.None? && v.activationTokenExpires.None?
    ensures v.id == u.id && v.username == u.username && v.email == u.email && v.status == u.status
    ensures v.role == u.role && v.company == u.company && v.firstName == u.firstName && v.lastName == u.lastName
    ensures v.phone == u.phone && v.usageDescription == u.usageDescription && v.lastLogin == u.lastLogin
    ensures v.createdAt == u.createdAt
  {
    u.(activationToken := None, activationTokenExpires := None)
  }

  /** The `where` array of lines 81-84 as TypeORM builds it: the `{}` of an
      absent field is dropped, so a row matches when it has one of the
      identities the body gives. */
  predicate UpdateFilterMatches(v: LegacyUser, dto: UpdateUserDto) {
    || (Truthy(dto.username) && v.username == dto.username.value)
    || (Truthy(dto.email) && v.email == dto.email.value)
  }

  /** Whether `update` throws Conflict: the first row the filter matches,
      in identifier order, is another user. */
  function UpdateConflicts(users: map<Id, LegacyUser>, bound: nat, id: Id, dto: UpdateUserDto): bool {
    && (Truthy(dto.username) || Truthy(dto.email))
    && var first := FirstRow(users, bound, (v: LegacyUser) => UpdateFilterMatches(v, dto));
    && first.Some? && first.value.id != id
  }

  /** Conflict is raised only when another user holds a given identity, and
      always when one does while the target itself holds neither: a clash is
      missed only when the target is the first row matched. */
  lemma {:induction false} UpdateConflictsMeans(users: map<Id, LegacyUser>, bound: nat, id: Id, dto: UpdateUserDto)
    requires forall k :: k in users ==> users[k].id == k && k < bound
    ensures UpdateConflicts(users, bound, id, dto) ==>
              exists k :: k in users && k != id && UpdateFilterMatches(users[k], dto)
    ensures ((exists k :: k in users && k != id && UpdateFilterMatches(users[k], dto))
             && !(id in users && UpdateFilterMatches(users[id], dto)))
            ==> UpdateConflicts(users, bound, id, dto)
  {
    var p := (v: LegacyUser) => UpdateFilterMatches(v, dto);
    var first := FirstRow(users, bound, p);
    if UpdateConflicts(users, bound, id, dto) {
      var j :| j in users && users[j] == first.value;
      assert j != id && UpdateFilterMatches(users[j], dto);
    }
    if (exists k :: k in users && k != id && UpdateFilterMatches(users[k], dto))
       && !(id in users && UpdateFilterMatches(users[id], dto)) {
      var k :| k in users && k != id && UpdateFilterMatches(users[k], dto);
      assert p(users[k]);
      assert first.Some?;
      var j :| j in users && users[j] == first.value;
      assert j != id;
    }
  }

  /** `Object.assign(user, dto)`; a new password is hashed by the entity's
      update hook. */
  function ApplyUpdate(u: LegacyUser, dto: UpdateUserDto): (v: LegacyUser)
    ensures v.id == u.id && v.activationToken == u.activationToken && v.lastLogin == u.lastLogin
    ensures dto.password.Some? ==> v.password == Some(Hash(dto.password.value))
    ensures dto.password.None? ==> v.password == u.password
    ensures v.username == Patch(dto.username, u.username) && v.email == Patch(dto.email, u.email)
    ensures v.status == Patch(dto.status, u.status) && v.role == Patch(dto.role, u.role)
  {
    u.(username := Patch(dto.username, u.username),
       email := Patch(dto.email, u.email),
       password := if dto.password.Some? then Some(Hash(dto.password.value)) else u.password,
       firstName := PatchNullable(dto.firstName, u.firstName),
       lastName := PatchNullable(dto.lastName, u.lastName),
       company := PatchNullable(dto.company, u.company),
       role := Patch(dto.role, u.role),
       status := Patch(dto.status, u.status),
       phone := PatchNullable(dto.phone, u.phone),
       usageDescription := PatchNullable(dto.usageDescription, u.usageDescription))
  }

  /** `activationTokenExpires < new Date()` with no null guard: a missing
      expiry compares as 0. */
  predicate Expired(u: LegacyUser, now: int) {
    (if u.activationTokenExpires.Some? then u.activationTokenExpires.value else 0) < now
  }

  /** A request-access account whose expiry is missing counts as expired at
      any instant after the epoch, unlike in the newer service. */
  lemma MissingExpiryCountsAsExpired(u: LegacyUser, now: int)
    requires u.activationTokenExpires.None? && now > 0
    ensures Expired(u, now)
  {
  }

  class LegacyUsersService {
    /** The repository's rows, keyed by id. */
    var users: map<Id, LegacyUser>
    var nextId: Id

    ghost predicate Valid()
      reads this
    {
      forall k :: k in users ==> users[k].id == k && k < nextId
    }

    constructor ()
      ensures Valid() && users == map[] && nextId == 0
    {
      users := map[];
      nextId := 0;
    }

    /** `findOne({ where })` in identifier order. */
    function FirstUser(p: LegacyUser -> bool): (r: Option<LegacyUser>)
      reads this
      requires Valid()
      ensures r.Some? ==> r.value.id in users && users[r.value.id] == r.value && p(r.value)
      ensures r.None? ==> forall k :: k in users ==> !p(users[k])
    {
      FirstRow(users, nextId, p)
    }

    /** `create` (lines 25-41). */
    method Create(dto: CreateUserDto, now: int) returns (r: Result<LegacyUser>)
      requires Valid()
      modifies this
      ensures Valid()
      ensures (exists k :: k in old(users) && (old(users)[k].username == dto.username || old(users)[k].email == dto.email))
              <==> r.Err?
      ensures r.Err? ==> r.error == Conflict(Users.UserExists) && users == old(users) && nextId == old(nextId)
      ensures r.Ok? ==> r.value.id == old(nextId) && nextId == old(nextId) + 1
      ensures r.Ok? ==>
        && r.value.id !in old(users)
        && users == old(users)[r.value.id := r.value]
        && r.value.username == dto.username && r.value.email == dto.email
        && r.value.password == Some(Hash(dto.password))
        && r.value.role == (if dto.role.Some? then dto.role.value else USER)
        && r.value.status == (if dto.status.Some? then dto.status.value else PENDING)
        && r.value.company == dto.company
    {
      var existing := FirstUser((u: LegacyUser) => u.username == dto.username || u.email == dto.email);
      if existing.Some? {
        return Err(Conflict(Users.UserExists));
      }
      var id := nextId;
      nextId := nextId + 1;
      var user := LegacyUser(id, dto.username, dto.email, Some(Hash(dto.password)), dto.firstName,
                             dto.lastName, dto.company,
                             if dto.role.Some? then dto.role.value else USER,
                             if dto.status.Some? then dto.status.value else PENDING,
                             dto.phone, dto.usageDescription, None, None, None, now);
      users := users[id := user];
      r := Ok(user);
    }

    /** `findOne` (lines 50-61): the selected columns, or NotFound. */
    function FindOne(id: Id): (r: Result<LegacyUser>)
      reads this
      ensures r.Ok? <==> id in users
      ensures r.Ok? ==> r.value == Selected(users[id])
      ensures r.Err? ==> r.error == NotFound(Users.UserMissing(id))
    {
      if id in users then Ok(Selected(users[id])) else Err(NotFound(Users.UserMissing(id)))
    }

    /** `findByUsername` (lines 63-68): the first row with that username,
        projected on the columns of its `select`, which keep the password
        and leave out the activation token and its expiry. */
    function FindByUsername(username: string): (r: Option<LegacyUser>)
      reads this
      requires Valid()
      ensures r.Some? ==> r.value.id in users && r.value.username == username
      ensures r.Some? ==> r.value == Credentials(users[r.value.id])
      ensures r.Some? ==> r.value.password == users[r.value.id].password && r.value.status == users[r.value.id].status
      ensures r.Some? ==> r.value.activationToken.None? && r.value.activationTokenExpires.None?
      ensures r.None? <==> forall k :: k in users ==> users[k].username != username
    {
      var first := FirstUser((u: LegacyUser) => u.username == username);
      if first.Some? then Some(Credentials(first.value)) else None
    }

    function FindByEmail(email: string): (r: Option<LegacyUser>)
      reads this
      requires Valid()
      ensures r.Some? ==> r.value.id in users && users[r.value.id] == r.value && r.value.email == email
      ensures r.None? <==> forall k :: k in users ==> users[k].email != email
    {
      FirstUser((u: LegacyUser) => u.email == email)
    }

    /** `update` (lines 76-99): only the FIRST row the filter matches is
        compared with the target. */
    method Update(id: Id, dto: UpdateUserDto) returns (r: Result<LegacyUser>)
      requires Valid()
      modifies this`users
      ensures Valid()
      ensures id !in old(users) ==> r == Err(NotFound(Users.UserMissing(id)))
      ensures id in old(users) && UpdateConflicts(old(users), nextId, id, dto) ==> r == Err(Conflict(Users.UserExists))
      ensures id in old(users) && !UpdateConflicts(old(users), nextId, id, dto) ==> r.Ok?
      ensures r.Err? ==> users == old(users)
      ensures r.Ok? ==>
        && id in old(users)
        && users == old(users)[id := ApplyUpdate(old(users)[id], dto)]
        && r.value == ApplyUpdate(Selected(old(users)[id]), dto)
    {
      var found := FindOne(id);
      if found.Err? {
        return Err(found.error);
      }
      if Truthy(dto.username) || Truthy(dto.email) {
        var existing := FirstUser((v: LegacyUser) => UpdateFilterMatches(v, dto));
        if existing.Some? && existing.value.id != id {
          return Err(Conflict(Users.UserExists));
        }
      }
      users := users[id := ApplyUpdate(users[id], dto)];
      r := Ok(ApplyUpdate(found.value, dto));
    }

    /** `remove` (lines 101-104). */
    method Remove(id: Id) returns (r: Result<()>)
      requires Valid()
      modifies this`users
      ensures Valid()
      ensures r.Ok? <==> id in old(users)
      ensures r.Err? ==> r.error == NotFound(Users.UserMissing(id)) && users == old(users)
      ensures r.Ok? ==> users == old(users) - {id}
    {
      var found := FindOne(id);
      if found.Err? {
        return Err(found.error);
      }
      users := users - {id};
      r := Ok(());
    }

    /** `requestAccess` (lines 106-136): no role lookup and no company table;
        the account has no password. `token` is a fresh uuid. */
    method RequestAccess(dto: RequestAccessDto, now: nat, token: string) returns (r: Result<LegacyUser>)
      requires Valid()
      modifies this
      ensures Valid()
      ensures (exists k :: k in old(users) && old(users)[k].email == dto.email) <==> r == Err(Conflict(Users.EmailExists))
      ensures r.Err? ==> users == old(users)
      ensures r.Ok? ==>
        && r.value.id !in old(users)
        && users == old(users)[r.value.id := r.value]
        && r.value.username == Users.DerivedUsername(dto.email, now)
        && r.value.email == dto.email && r.value.password.None?
        && r.value.company == Some(dto.company)
        && r.value.role == USER && r.value.status == PENDING
        && r.value.activationToken == Some(token)
        && r.value.activationTokenExpires == Some(now + Users.ActivationWindow)
    {
      var existing := FindByEmail(dto.email);
      if existing.Some? {
        return Err(Conflict(Users.EmailExists));
      }
      var id := nextId;
      nextId := nextId + 1;
      var user := LegacyUser(id, Users.DerivedUsername(dto.email, now), dto.email, None,
                             Some(dto.firstName), Some(dto.lastName), Some(dto.company), USER, PENDING,
                             dto.phone, Some(dto.usageDescription), Some(token),
                             Some(now + Users.ActivationWindow), None, now);
      users := users[id := user];
      r := Ok(user);
    }

    /** `activateAccount` (lines 138-169): the first row holding the token. */
    method ActivateAccount(token: string, password: string, confirmPassword: string, now: int)
      returns (r: Result<LegacyUser>)
      requires Valid()
      modifies this`users
      ensures Valid()
      ensures password != confirmPassword ==> r == Err(BadRequest(Users.PasswordsDiffer))
      ensures (password == confirmPassword && forall k :: k in old(users) ==> old(users)[k].activationToken != Some(token))
              ==> r == Err(NotFound(Users.TokenInvalid))
      ensures var u := FirstRow(old(users), nextId, (v: LegacyUser) => v.activationToken == Some(token));
        && ((password == confirmPassword && u.Some? && Expired(u.value, now))
              ==> r == Err(BadRequest(Users.TokenExpired)))
        && ((password == confirmPassword && u.Some? && !Expired(u.value, now) && u.value.status == ACTIVE)
              ==> r == Err(BadRequest(Users.AlreadyActive)))
        && ((password == confirmPassword && u.Some? && !Expired(u.value, now) && u.value.status != ACTIVE)
              ==> r.Ok?)
      ensures r.Err? ==> users == old(users)
      ensures r.Ok? ==>
        && password == confirmPassword
        && var u := FirstRow(old(users), nextId, (v: LegacyUser) => v.activationToken == Some(token));
        && u.Some? && !Expired(u.value, now) && u.value.status != ACTIVE
        && r.value == u.value.(password := Some(Hash(password)), status := ACTIVE,
                               activationToken := None, activationTokenExpires := None)
        && users == old(users)[u.value.id := r.value]
    {
      if password != confirmPassword {
        return Err(BadRequest(Users.PasswordsDiffer));
      }
      var user := FirstUser((v: LegacyUser) => v.activationToken == Some(token));
      if user.None? {
        return Err(NotFound(Users.TokenInvalid));
      }
      var u := user.value;
      if Expired(u, now) {
        return Err(BadRequest(Users.TokenExpired));
      }
      if u.status == ACTIVE {
        return Err(BadRequest(Users.AlreadyActive));
      }
      var updated := u.(password := Some(Hash(password)), status := ACTIVE,
                        activationToken := None, activationTokenExpires := None);
      users := users[u.id := updated];
      r := Ok(updated);
    }

    /** `updateLastLogin` (lines 171-173): `repository.update` on a missing
        id affects no row and raises nothing. */
    method UpdateLastLogin(id: Id, now: int)
      requires Valid()
      modifies this`users
      ensures Valid()
      ensures id in old(users) ==> users == old(users)[id := old(users)[id].(lastLogin := Some(now))]
      ensures id !in old(users) ==> users == old(users)
    {
      if id in users {
        users := users[id := users[id].(lastLogin := Some(now))];
      }
    }
  }

  /** The update check compares only the first matching row with the target:
      when the target comes first, here through its own email, a username
      held by another user goes through, and two rows end up with the same
      username. */
  method UpdateMissesClash() returns (s: LegacyUsersService, r: Result<LegacyUser>)
    ensures r.Ok?
    ensures 0 in s.users && 1 in s.users && s.users[0].username == s.users[1].username
  {
    s := new LegacyUsersService();
    var a := s.Create(CreateUserDto("alice", "a@x.io", "secret1", None, None, None, None, None, None, None), 0);
    var b := s.Create(CreateUserDto("bob", "b@x.io", "secret2", None, None, None, None, None, None, None), 0);
    assert s.users[0].username == "alice" && s.users[1].username == "bob";
    var dto := UpdateUserDto(Some("bob"), Some("a@x.io"), None, None, None, None, None, None, None, None);
    assert Rows(s.users, 1) == [s.users[0]];
    assert Rows(s.users, 2) == [s.users[0], s.users[1]];
    r := s.Update(0, dto);
  }
}
