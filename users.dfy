/** The account lifecycle of backend/src/feature/users/users.service.ts:
    administrative creation and update, self-service access requests that
    leave a PENDING account with a 48-hour activation token, and activation,
    which consumes the token. Every method reads and then writes the user,
    role and company tables of the shared store. */
module Users {
  import opened Common
  import opened Entities
  import opened Ordering
  import opened Store

  const UserRoleName := "USER"
  /** `setHours(getHours() + 48)`, in milliseconds. */
  const ActivationWindow := 48 * 60 * 60 * 1000

  const UserExists := "Un utilisateur avec ce nom d'utilisateur ou cet email existe déjà"
  const EmailExists := "Un utilisateur avec cet email existe déjà"
  const DefaultRoleMissing := "Le rôle USER par défaut n'existe pas"
  const PasswordsDiffer := "Les mots de passe ne correspondent pas"
  const TokenInvalid := "Token d'activation invalide"
  const TokenExpired := "Le token d'activation a expiré"
  const AlreadyActive := "Le compte est déjà activé"

  function RoleMissing(id: Id): string {
    "Le rôle avec l'ID " + NatToString(id) + " n'existe pas"
  }

  function UserMissing(id: Id): string {
    "Utilisateur avec l'ID " + NatToString(id) + " non trouvé"
  }

  /** The body of `POST /users`, after validation (see Dtos.ValidateCreateUser). */
  datatype CreateUserDto = CreateUserDto(
    username: string,
    email: string,
    password: string,
    firstName: Option<string>,
    lastName: Option<string>,
    company: Option<string>,
    roleId: Option<Id>,
    status: Option<UserStatus>,
    phone: Option<string>,
    usageDescription: Option<string>)

  /** The body of `PATCH /users/:id`: every field optional. */
  datatype UpdateUserDto = UpdateUserDto(
    username: Option<string>,
    email: Option<string>,
    password: Option<string>,
    firstName: Option<string>,
    lastName: Option<string>,
    roleId: Option<Id>,
    status: Option<UserStatus>,
    phone: Option<string>,
    usageDescription: Option<string>)

  datatype RequestAccessDto = RequestAccessDto(
    firstName: string,
    lastName: string,
    email: string,
    company: string,
    phone: Option<string>,
    usageDescription: string)

  datatype ActivateAccountDto = ActivateAccountDto(token: string, password: string, confirmPassword: string)

  // -----------------------------------------------------------------------
  // Facts about a state, used by the contracts below.
  // -----------------------------------------------------------------------

  ghost predicate IdentityTaken(users: map<Id, User>, username: string, email: string) {
    exists k :: k in users && (users[k].username == username || users[k].email == email)
  }

  ghost predicate EmailTaken(users: map<Id, User>, email: string) {
    exists k :: k in users && users[k].email == email
  }

  ghost predicate UsernameTaken(users: map<Id, User>, username: string) {
    exists k :: k in users && users[k].username == username
  }

  ghost predicate HasRoleNamed(roles: map<Id, Role>, name: string) {
    exists k :: k in roles && roles[k].name == name
  }

  ghost predicate TokenHeld(users: map<Id, User>, token: string) {
    exists k :: k in users && users[k].activationToken == Some(token)
  }

  /** Company `cid` is the one named `name` after a get-or-create: it was
      there already and nothing changed, or it is the only new company. */
  ghost predicate GotOrCreated(before: map<Id, Company>, after: map<Id, Company>, name: string, cid: Id) {
    && cid in after && after[cid].name == name
    && (cid in before ==> after == before)
    && (cid !in before ==>
          && after == before[cid := after[cid]]
          && forall k :: k in before ==> before[k].name != name)
  }

  /** `email.split('@')[0]`: the text before the first '@', or all of it. */
  function LocalPart(email: string): (r: string)
    ensures |r| <= |email| && r == email[..|r|]
    ensures '@' !in r
    ensures |r| < |email| ==> email[|r|] == '@'
  {
    if email == [] || email[0] == '@' then []
    else [email[0]] + LocalPart(email[1..])
  }

  /** The username `requestAccess` derives: local part, '_', `Date.now()`. */
  function DerivedUsername(email: string, now: nat): string {
    LocalPart(email) + "_" + NatToString(now)
  }

  /** Two requests made at different instants derive different usernames. */
  lemma DerivedUsernameDistinct(email: string, now1: nat, now2: nat)
    requires now1 != now2
    ensures DerivedUsername(email, now1) != DerivedUsername(email, now2)
  {
    var p := LocalPart(email) + "_";
    if DerivedUsername(email, now1) == DerivedUsername(email, now2) {
      assert NatToString(now1) == DerivedUsername(email, now1)[|p|..];
      assert NatToString(now2) == DerivedUsername(email, now2)[|p|..];
      NatToStringInjective(now1, now2);
    }
  }

  // -----------------------------------------------------------------------
  // Get-or-create of a company by name (lines 66-79 and 239-248).
  // -----------------------------------------------------------------------

  method GetOrCreateCompany(db: Db, name: string, now: int) returns (cid: Id)
    requires db.Valid()
    modifies db`companies, db`nextId
    ensures db.Valid()
    ensures GotOrCreated(old(db.companies), db.companies, name, cid)
    ensures cid !in old(db.companies) ==> db.companies[cid] == Company(cid, name, now)
  {
    var company := CompanyNamed(db.companies, db.nextId, name);
    if company.Some? {
      cid := company.value.id;
    } else {
      cid := db.FreshId();
      db.companies := db.companies[cid := Company(cid, name, now)];
    }
  }

  // -----------------------------------------------------------------------
  // create (lines 20-98)
  // -----------------------------------------------------------------------

  /** The role a created account gets (lines 43-62): the one named in the
      request, which must exist, or else the USER role, which must exist. */
  function ResolveRole(db: Db, roleId: Option<Id>): (r: Result<Id>)
    reads db
    requires db.Valid()
    ensures r.Ok? ==> r.value in db.roles
    ensures roleId.Some? ==> (r.Ok? <==> roleId.value in db.roles)
    ensures roleId.Some? && r.Ok? ==> r.value == roleId.value
    ensures roleId.Some? && r.Err? ==> r.error == NotFound(RoleMissing(roleId.value))
    ensures roleId.None? ==> (r.Ok? <==> HasRoleNamed(db.roles, UserRoleName))
    ensures roleId.None? && r.Ok? ==> db.roles[r.value].name == UserRoleName
    ensures roleId.None? && r.Err? ==> r.error == NotFound(DefaultRoleMissing)
  {
    if roleId.None? then
      var role := RoleNamed(db.roles, db.nextId, UserRoleName);
      if role.None? then Err(NotFound(DefaultRoleMissing)) else Ok(role.value.id)
    else if roleId.value in db.roles then Ok(roleId.value)
    else Err(NotFound(RoleMissing(roleId.value)))
  }

  /** `user.create` of a row that breaks no unique constraint. */
  method InsertUser(db: Db, u: User)
    requires db.Valid()
    requires u.id !in db.users && u.id < db.nextId && u.roleId in db.roles
    requires u.companyId.Some? ==> u.companyId.value in db.companies
    requires forall k :: k in db.users ==> db.users[k].username != u.username && db.users[k].email != u.email
    requires u.activationToken.Some? ==> !TokenHeld(db.users, u.activationToken.value)
    modifies db`users
    ensures db.Valid()
    ensures db.users == old(db.users)[u.id := u]
  {
    AddUserValid(db.users, db.roles, db.nextId, u);
    db.users := db.users[u.id := u];
  }

  /** Lines 64-79: a company is attached only when one is named. */
  method CompanyForCreate(db: Db, company: Option<string>, now: int) returns (cid: Option<Id>)
    requires db.Valid()
    modifies db`companies, db`nextId
    ensures db.Valid()
    ensures Truthy(company) <==> cid.Some?
    ensures cid.Some? ==> GotOrCreated(old(db.companies), db.companies, company.value, cid.value)
    ensures cid.None? ==> db.companies == old(db.companies) && db.nextId == old(db.nextId)
  {
    cid := None;
    if Truthy(company) {
      var id := GetOrCreateCompany(db, company.value, now);
      cid := Some(id);
    }
  }

  /** The fields `create` copies from the request (lines 81-95). */
  ghost predicate CreatedAsRequested(u: User, dto: CreateUserDto, now: int) {
    && u.username == dto.username && u.email == dto.email
    && Compare(dto.password, u.password)
    && u.firstName == dto.firstName && u.lastName == dto.lastName
    && u.phone == dto.phone && u.usageDescription == dto.usageDescription
    && u.status == Patch(dto.status, PENDING)
    && u.activationToken.None? && u.activationTokenExpires.None? && u.lastLogin.None? && u.createdAt == now
    && (Truthy(dto.company) <==> u.companyId.Some?)
  }

  method Create(db: Db, dto: CreateUserDto, now: int) returns (r: Result<UserView>)
    requires db.Valid()
    modifies db`users, db`companies, db`nextId
    ensures db.Valid()
    ensures IdentityTaken(old(db.users), dto.username, dto.email) ==> r == Err(Conflict(UserExists))
    ensures (!IdentityTaken(old(db.users), dto.username, dto.email) && dto.roleId.None?
             && !HasRoleNamed(old(db.roles), UserRoleName)) ==> r == Err(NotFound(DefaultRoleMissing))
    ensures (!IdentityTaken(old(db.users), dto.username, dto.email) && dto.roleId.Some?
             && dto.roleId.value !in old(db.roles)) ==> r == Err(NotFound(RoleMissing(dto.roleId.value)))
    ensures (!IdentityTaken(old(db.users), dto.username, dto.email)
             && (if dto.roleId.Some? then dto.roleId.value in old(db.roles) else HasRoleNamed(old(db.roles), UserRoleName)))
            ==> r.Ok?
    ensures r.Err? ==> db.users == old(db.users) && db.companies == old(db.companies) && db.nextId == old(db.nextId)
    ensures r.Ok? ==> r.value.id !in old(db.users) && r.value.id in db.users
    ensures r.Ok? ==> db.users == old(db.users)[r.value.id := db.users[r.value.id]]
    ensures r.Ok? ==> CreatedAsRequested(db.users[r.value.id], dto, now)
    ensures r.Ok? && dto.roleId.Some? ==> db.users[r.value.id].roleId == dto.roleId.value
    ensures r.Ok? && dto.roleId.None? ==> db.roles[db.users[r.value.id].roleId].name == UserRoleName
    ensures r.Ok? && Truthy(dto.company) ==>
              GotOrCreated(old(db.companies), db.companies, dto.company.value, db.users[r.value.id].companyId.value)
    ensures r.Ok? && !Truthy(dto.company) ==> db.companies == old(db.companies)
    ensures r.Ok? ==> r.value == ViewOf(db.users[r.value.id], db.roles[db.users[r.value.id].roleId])
  {
    var existing := FirstRow(db.users, db.nextId, (u: User) => u.username == dto.username || u.email == dto.email);
    if existing.Some? {
      return Err(Conflict(UserExists));
    }
    var role := ResolveRole(db, dto.roleId);
    if role.Err? {
      return Err(role.error);
    }
    var companyId := CompanyForCreate(db, dto.company, now);
    var view := InsertCreated(db, dto, now, role.value, companyId);
    r := Ok(view);
  }

  /** Lines 81-97, once the checks have passed and the company is settled. */
  method InsertCreated(db: Db, dto: CreateUserDto, now: int, roleId: Id, companyId: Option<Id>)
    returns (view: UserView)
    requires db.Valid()
    requires !IdentityTaken(db.users, dto.username, dto.email) && roleId in db.roles
    requires Truthy(dto.company) <==> companyId.Some?
    requires companyId.Some? ==> companyId.value in db.companies
    modifies db`users, db`nextId
    ensures db.Valid()
    ensures view.id !in old(db.users) && view.id in db.users
    ensures db.users == old(db.users)[view.id := db.users[view.id]]
    ensures CreatedAsRequested(db.users[view.id], dto, now)
    ensures db.users[view.id].roleId == roleId && db.users[view.id].companyId == companyId
    ensures view == ViewOf(db.users[view.id], db.roles[roleId])
  {
    var hashed := Hash(dto.password);
    var id := db.FreshId();
    var user := User(id, dto.username, dto.email, hashed, dto.firstName, dto.lastName,
                     dto.phone, dto.usageDescription, Patch(dto.status, PENDING),
                     roleId, companyId, None, None, None, now);
    InsertUser(db, user);
    view := ViewOf(user, db.roles[roleId]);
  }

  // -----------------------------------------------------------------------
  // findOne, findByUsername, findByEmail (lines 110-136)
  // -----------------------------------------------------------------------

  function FindOne(db: Db, id: Id): (r: Result<UserView>)
    reads db
    requires db.Valid()
    ensures r.Ok? <==> id in db.users
    ensures r.Ok? ==> r.value == ViewOf(db.users[id], db.roles[db.users[id].roleId])
    ensures r.Err? ==> r.error == NotFound(UserMissing(id))
  {
    if id in db.users then
      var u := db.users[id];
      Ok(ViewOf(u, db.roles[u.roleId]))
    else Err(NotFound(UserMissing(id)))
  }

  /** The stored row (password included, role not included). */
  function FindByUsername(db: Db, username: string): (r: Option<User>)
    reads db
    requires db.Valid()
    ensures r.Some? <==> exists k :: k in db.users && db.users[k].username == username
    ensures r.Some? ==> r.value.id in db.users && db.users[r.value.id] == r.value && r.value.username == username
  {
    UserWithUsername(db.users, db.nextId, username)
  }

  function FindByEmail(db: Db, email: string): (r: Option<User>)
    reads db
    requires db.Valid()
    ensures r.Some? <==> EmailTaken(db.users, email)
    ensures r.Some? ==> r.value.id in db.users && db.users[r.value.id] == r.value && r.value.email == email
  {
    UserWithEmail(db.users, db.nextId, email)
  }

  // -----------------------------------------------------------------------
  // update (lines 138-199)
  // -----------------------------------------------------------------------

  /** What the validation pipe has already ensured about an update body. */
  predicate ValidUpdate(dto: UpdateUserDto) {
    && (dto.username.Some? ==> |dto.username.value| >= 3)
    && (dto.email.Some? ==> dto.email.value != "")
    && (dto.password.Some? ==> |dto.password.value| >= 6)
  }

  /** The filter of lines 148-151 as the database evaluates it: an absent
      field contributes `{}`, which matches every row, to the `OR`. */
  predicate UpdateFilterMatches(v: User, dto: UpdateUserDto) {
    || (if Truthy(dto.username) then v.username == dto.username.value else true)
    || (if Truthy(dto.email) then v.email == dto.email.value else true)
  }

  /** Whether the uniqueness check of `update` throws Conflict for `id`. */
  ghost predicate UpdateConflicts(users: map<Id, User>, id: Id, dto: UpdateUserDto) {
    && (Truthy(dto.username) || Truthy(dto.email))
    && exists k :: k in users && k != id && UpdateFilterMatches(users[k], dto)
  }

  /** The filter the comment on line 141 describes: another user already
      holds the new username or the new email. */
  predicate IntendedClash(v: User, dto: UpdateUserDto) {
    || (Truthy(dto.username) && v.username == dto.username.value)
    || (Truthy(dto.email) && v.email == dto.email.value)
  }

  /** As written, an update of the username alone conflicts with every other
      user, whatever their username. */
  lemma UpdateConflictAsWritten(v: User, newName: string)
    requires newName != "" && v.username != newName
    ensures var dto := UpdateUserDto(Some(newName), None, None, None, None, None, None, None, None);
            UpdateFilterMatches(v, dto) && !IntendedClash(v, dto)
  {
  }

  /** With both fields present the two filters agree; with one present the
      intended filter is the stricter one. */
  lemma IntendedClashRefines(v: User, dto: UpdateUserDto)
    ensures IntendedClash(v, dto) ==> UpdateFilterMatches(v, dto)
    ensures Truthy(dto.username) && Truthy(dto.email) ==> (IntendedClash(v, dto) <==> UpdateFilterMatches(v, dto))
    ensures !Truthy(dto.username) && !Truthy(dto.email) ==> !IntendedClash(v, dto)
  {
  }

  /** The row `user.update` writes: each field the body carries replaces
      the stored one, every other column is kept. */
  function ApplyUpdate(u: User, dto: UpdateUserDto): (v: User)
    ensures v.id == u.id && v.activationToken == u.activationToken && v.lastLogin == u.lastLogin
    ensures v.companyId == u.companyId && v.createdAt == u.createdAt
    ensures v.activationTokenExpires == u.activationTokenExpires
    ensures dto.firstName.Some? ==> v.firstName == dto.firstName
    ensures dto.firstName.None? ==> v.firstName == u.firstName
    ensures dto.lastName.Some? ==> v.lastName == dto.lastName
    ensures dto.lastName.None? ==> v.lastName == u.lastName
    ensures dto.phone.Some? ==> v.phone == dto.phone
    ensures dto.phone.None? ==> v.phone == u.phone
    ensures dto.usageDescription.Some? ==> v.usageDescription == dto.usageDescription
    ensures dto.usageDescription.None? ==> v.usageDescription == u.usageDescription
    ensures dto.password.Some? ==> Compare(dto.password.value, v.password)
    ensures dto.password.None? ==> v.password == u.password
    ensures v.username == Patch(dto.username, u.username) && v.email == Patch(dto.email, u.email)
    ensures v.roleId == Patch(dto.roleId, u.roleId) && v.status == Patch(dto.status, u.status)
  {
    u.(username := Patch(dto.username, u.username),
       email := Patch(dto.email, u.email),
       password := if dto.password.Some? then Hash(dto.password.value) else u.password,
       firstName := PatchNullable(dto.firstName, u.firstName),
       lastName := PatchNullable(dto.lastName, u.lastName),
       roleId := Patch(dto.roleId, u.roleId),
       status := Patch(dto.status, u.status),
       phone := PatchNullable(dto.phone, u.phone),
       usageDescription := PatchNullable(dto.usageDescription, u.usageDescription))
  }

  /** The uniqueness check of `update`, strict as it is, is enough to keep
      usernames and emails unique. */
  lemma UpdateKeepsIdentitiesUnique(users: map<Id, User>, roles: map<Id, Role>, bound: nat, id: Id, dto: UpdateUserDto)
    requires UsersValid(users, roles, bound) && id in users && ValidUpdate(dto)
    requires !UpdateConflicts(users, id, dto)
    ensures forall k :: k in users && k != id ==>
              && users[k].username != ApplyUpdate(users[id], dto).username
              && users[k].email != ApplyUpdate(users[id], dto).email
  {
    forall k | k in users && k != id
      ensures users[k].username != ApplyUpdate(users[id], dto).username
      ensures users[k].email != ApplyUpdate(users[id], dto).email
    {
      if Truthy(dto.username) || Truthy(dto.email) {
        assert !UpdateFilterMatches(users[k], dto);
      }
    }
  }

  /** `user.update` of a row that breaks no unique constraint. */
  method ReplaceUser(db: Db, u: User)
    requires db.Valid()
    requires u.id in db.users && u.roleId in db.roles
    requires u.companyId.Some? ==> u.companyId.value in db.companies
    requires forall k :: k in db.users && k != u.id ==>
               db.users[k].username != u.username && db.users[k].email != u.email
    requires u.activationToken.Some? ==> forall k :: k in db.users && k != u.id ==>
               db.users[k].activationToken != u.activationToken
    modifies db`users
    ensures db.Valid()
    ensures db.users == old(db.users)[u.id := u]
  {
    ReplaceUserValid(db.users, db.roles, db.nextId, u);
    db.users := db.users[u.id := u];
  }

  method Update(db: Db, id: Id, dto: UpdateUserDto) returns (r: Result<UserView>)
    requires db.Valid() && ValidUpdate(dto)
    modifies db`users
    ensures db.Valid()
    ensures id !in old(db.users) ==> r == Err(NotFound(UserMissing(id)))
    ensures (id in old(db.users) && UpdateConflicts(old(db.users), id, dto)) ==> r == Err(Conflict(UserExists))
    ensures (id in old(db.users) && !UpdateConflicts(old(db.users), id, dto)
             && dto.roleId.Some? && dto.roleId.value !in db.roles) ==> r == Err(NotFound(RoleMissing(dto.roleId.value)))
    ensures (id in old(db.users) && !UpdateConflicts(old(db.users), id, dto)
             && (dto.roleId.None? || dto.roleId.value in db.roles)) ==> r.Ok?
    ensures r.Err? ==> db.users == old(db.users)
    ensures r.Ok? ==>
      && id in old(db.users)
      && db.users == old(db.users)[id := ApplyUpdate(old(db.users)[id], dto)]
      && r.value == ViewOf(db.users[id], db.roles[db.users[id].roleId])
  {
    if id !in db.users {
      return Err(NotFound(UserMissing(id)));
    }
    if Truthy(dto.username) || Truthy(dto.email) {
      var existing := FirstRow(db.users, db.nextId, (v: User) => v.id != id && UpdateFilterMatches(v, dto));
      if existing.Some? {
        assert existing.value.id in db.users;
        return Err(Conflict(UserExists));
      }
    }
    if dto.roleId.Some? && dto.roleId.value !in db.roles {
      return Err(NotFound(RoleMissing(dto.roleId.value)));
    }
    var updated := ApplyUpdate(db.users[id], dto);
    UpdateKeepsIdentitiesUnique(db.users, db.roles, db.nextId, id, dto);
    ReplaceUser(db, updated);
    r := Ok(ViewOf(updated, db.roles[updated.roleId]));
  }

  // -----------------------------------------------------------------------
  // remove (lines 201-206)
  // -----------------------------------------------------------------------

  /** Some notification belongs to the user. `Notification.user` is a
      required relation, so such a user cannot be deleted. */
  ghost predicate HasNotifications(notifications: map<Id, Notification>, id: Id) {
    exists k :: k in notifications && notifications[k].userId == id
  }

  /** NotFound for an unknown id (the `findOne` guard); the delete is
      refused while the user has notifications; otherwise the user goes and
      its API keys lose their owner. */
  method Remove(db: Db, id: Id) returns (r: Result<()>)
    requires db.Valid()
    modifies db`users, db`apiKeys
    ensures db.Valid()
    ensures id !in old(db.users) ==> r == Err(NotFound(UserMissing(id)))
    ensures id in old(db.users) && HasNotifications(db.notifications, id) ==> r == Err(DatabaseError(ForeignKeyViolation))
    ensures r.Ok? <==> id in old(db.users) && !HasNotifications(db.notifications, id)
    ensures r.Err? ==> db.users == old(db.users) && db.apiKeys == old(db.apiKeys)
    ensures r.Ok? ==> db.users == old(db.users) - {id} && db.apiKeys == Disowned(old(db.apiKeys), id)
  {
    if id !in db.users {
      return Err(NotFound(UserMissing(id)));
    }
    var owned := FirstRow(db.notifications, db.nextId, (n: Notification) => n.userId == id);
    if owned.Some? {
      return Err(DatabaseError(ForeignKeyViolation));
    }
    Delete(db, id);
    r := Ok(());
  }

  /** `user.delete` once no notification refers to the user. */
  method Delete(db: Db, id: Id)
    requires db.Valid() && id in db.users
    requires forall k :: k in db.notifications ==> db.notifications[k].userId != id
    modifies db`users, db`apiKeys
    ensures db.Valid()
    ensures db.users == old(db.users) - {id} && db.apiKeys == Disowned(old(db.apiKeys), id)
  {
    var users, apiKeys := db.users - {id}, Disowned(db.apiKeys, id);
    RemoveUserValid(db.users, db.roles, db.nextId, db.companies, db.notifications, db.apiKeys, id);
    db.SetUsersAndApiKeys(users, apiKeys);
  }

  // -----------------------------------------------------------------------
  // requestAccess (lines 208-277)
  // -----------------------------------------------------------------------

  /** The row `requestAccess` writes (lines 250-265), apart from its role and company. */
  ghost predicate RequestedAsSubmitted(u: User, dto: RequestAccessDto, now: nat, token: string, tempPassword: string) {
    && u.username == DerivedUsername(dto.email, now)
    && u.email == dto.email
    && Compare(tempPassword, u.password)
    && u.firstName == Some(dto.firstName) && u.lastName == Some(dto.lastName)
    && u.phone == dto.phone && u.usageDescription == Some(dto.usageDescription)
    && u.status == PENDING
    && u.activationToken == Some(token)
    && u.activationTokenExpires == Some(now + ActivationWindow)
    && u.lastLogin.None? && u.createdAt == now
    && u.companyId.Some?
  }

  /** `token` and `tempPassword` are the two `uuidv4()` values; a uuid is
      fresh, so no user holds `token` yet. */
  method RequestAccess(db: Db, dto: RequestAccessDto, now: nat, token: string, tempPassword: string)
    returns (r: Result<UserView>)
    requires db.Valid()
    requires !TokenHeld(db.users, token)
    modifies db`users, db`companies, db`nextId
    ensures db.Valid()
    ensures EmailTaken(old(db.users), dto.email) ==> r == Err(Conflict(EmailExists))
    ensures (!EmailTaken(old(db.users), dto.email) && !HasRoleNamed(db.roles, UserRoleName))
            ==> r == Err(NotFound(DefaultRoleMissing))
    ensures (!EmailTaken(old(db.users), dto.email) && HasRoleNamed(db.roles, UserRoleName)
             && !UsernameTaken(old(db.users), DerivedUsername(dto.email, now))) ==> r.Ok?
    ensures r.Err? && !r.error.DatabaseError? ==>
              db.users == old(db.users) && db.companies == old(db.companies) && db.nextId == old(db.nextId)
    ensures r.Err? && r.error.DatabaseError? ==>
      // the derived username is taken; the company may already have been created
      && r.error.code == UniqueViolation
      && db.users == old(db.users)
      && UsernameTaken(old(db.users), DerivedUsername(dto.email, now))
    ensures r.Ok? ==> r.value.id !in old(db.users) && r.value.id in db.users
    ensures r.Ok? ==> db.users == old(db.users)[r.value.id := db.users[r.value.id]]
    ensures r.Ok? ==> RequestedAsSubmitted(db.users[r.value.id], dto, now, token, tempPassword)
    ensures r.Ok? ==> db.roles[db.users[r.value.id].roleId].name == UserRoleName
    ensures r.Ok? ==> GotOrCreated(old(db.companies), db.companies, dto.company, db.users[r.value.id].companyId.value)
    ensures r.Ok? ==> r.value == ViewOf(db.users[r.value.id], db.roles[db.users[r.value.id].roleId])
  {
    var existing := FindByEmail(db, dto.email);
    if existing.Some? {
      return Err(Conflict(EmailExists));
    }
    var defaultRole := ResolveRole(db, None);
    if defaultRole.Err? {
      return Err(defaultRole.error);
    }
    var cid := GetOrCreateCompany(db, dto.company, now);
    r := InsertRequested(db, dto, now, token, tempPassword, defaultRole.value, cid);
  }

  /** Lines 226-266 after the company is settled: the derived username may
      already exist, and then the unique index rejects the row. */
  method InsertRequested(db: Db, dto: RequestAccessDto, now: nat, token: string, tempPassword: string,
                         roleId: Id, cid: Id)
    returns (r: Result<UserView>)
    requires db.Valid()
    requires !TokenHeld(db.users, token) && !EmailTaken(db.users, dto.email) && roleId in db.roles
    requires cid in db.companies
    modifies db`users, db`nextId
    ensures db.Valid()
    ensures r.Err? <==> UsernameTaken(old(db.users), DerivedUsername(dto.email, now))
    ensures r.Err? ==> r.error == DatabaseError(UniqueViolation) && db.users == old(db.users)
    ensures r.Ok? ==> r.value.id !in old(db.users) && r.value.id in db.users
    ensures r.Ok? ==> db.users == old(db.users)[r.value.id := db.users[r.value.id]]
    ensures r.Ok? ==> RequestedAsSubmitted(db.users[r.value.id], dto, now, token, tempPassword)
    ensures r.Ok? ==> db.users[r.value.id].roleId == roleId && db.users[r.value.id].companyId == Some(cid)
    ensures r.Ok? ==> r.value == ViewOf(db.users[r.value.id], db.roles[roleId])
  {
    var username := DerivedUsername(dto.email, now);
    var expires := now + ActivationWindow;
    var hashed := Hash(tempPassword);
    var clash := FindByUsername(db, username);
    if clash.Some? {
      return Err(DatabaseError(UniqueViolation));
    }
    var id := db.FreshId();
    var user := User(id, username, dto.email, hashed, Some(dto.firstName), Some(dto.lastName),
                     dto.phone, Some(dto.usageDescription), PENDING, roleId,
                     Some(cid), Some(token), Some(expires), None, now);
    InsertUser(db, user);
    r := Ok(ViewOf(user, db.roles[roleId]));
  }

  // -----------------------------------------------------------------------
  // activateAccount (lines 279-322)
  // -----------------------------------------------------------------------

  /** The account holding `token`, if any. */
  function TokenHolder(db: Db, token: string): (r: Option<User>)
    reads db
    requires db.Valid()
    ensures r.Some? <==> TokenHeld(db.users, token)
    ensures r.Some? ==> r.value.id in db.users && db.users[r.value.id] == r.value
                        && r.value.activationToken == Some(token)
  {
    FirstRow(db.users, db.nextId, (u: User) => u.activationToken == Some(token))
  }

  predicate Expired(u: User, now: int) {
    u.activationTokenExpires.Some? && u.activationTokenExpires.value < now
  }

  /** The row a successful activation writes. */
  function Activated(u: User, password: string): User {
    u.(password := Hash(password), status := ACTIVE, activationToken := None, activationTokenExpires := None)
  }

  /** The account holding `token`; there is at most one. */
  ghost function Holder(users: map<Id, User>, token: string): User
    requires TokenHeld(users, token)
  {
    var k :| k in users && users[k].activationToken == Some(token);
    users[k]
  }

  method ActivateAccount(db: Db, dto: ActivateAccountDto, now: int) returns (r: Result<UserView>)
    requires db.Valid()
    modifies db`users
    ensures db.Valid()
    ensures dto.password != dto.confirmPassword ==> r == Err(BadRequest(PasswordsDiffer))
    ensures (dto.password == dto.confirmPassword && !TokenHeld(old(db.users), dto.token))
            ==> r == Err(NotFound(TokenInvalid))
    ensures (dto.password == dto.confirmPassword && TokenHeld(old(db.users), dto.token)
             && Expired(Holder(old(db.users), dto.token), now)) ==> r == Err(BadRequest(TokenExpired))
    ensures (dto.password == dto.confirmPassword && TokenHeld(old(db.users), dto.token)
             && !Expired(Holder(old(db.users), dto.token), now)
             && Holder(old(db.users), dto.token).status == ACTIVE) ==> r == Err(BadRequest(AlreadyActive))
    ensures (dto.password == dto.confirmPassword && TokenHeld(old(db.users), dto.token)
             && !Expired(Holder(old(db.users), dto.token), now)
             && Holder(old(db.users), dto.token).status != ACTIVE) ==> r.Ok?
    ensures r.Err? ==> db.users == old(db.users)
    ensures r.Ok? ==>
      && TokenHeld(old(db.users), dto.token)
      && var u := Holder(old(db.users), dto.token);
      && !Expired(u, now) && u.status != ACTIVE
      && db.users == old(db.users)[u.id := Activated(u, dto.password)]
      && r.value == ViewOf(Activated(u, dto.password), db.roles[u.roleId])
    ensures r.Ok? ==> !TokenHeld(db.users, dto.token)
  {
    if dto.password != dto.confirmPassword {
      return Err(BadRequest(PasswordsDiffer));
    }
    var user := TokenHolder(db, dto.token);
    if user.None? {
      return Err(NotFound(TokenInvalid));
    }
    var u := user.value;
    assert u == Holder(db.users, dto.token);
    if Expired(u, now) {
      return Err(BadRequest(TokenExpired));
    }
    if u.status == ACTIVE {
      return Err(BadRequest(AlreadyActive));
    }
    var updated := Activated(u, dto.password);
    ReplaceUser(db, updated);
    r := Ok(ViewOf(updated, db.roles[u.roleId]));
  }

  /** A token is redeemed once: the second activation with the same token
      finds no account. */
  method ActivateTwice(db: Db, dto: ActivateAccountDto, now1: int, now2: int)
    returns (first: Result<UserView>, second: Result<UserView>)
    requires db.Valid()
    modifies db`users
    ensures first.Ok? ==> second == Err(NotFound(TokenInvalid))
  {
    first := ActivateAccount(db, dto, now1);
    second := ActivateAccount(db, dto, now2);
  }

  // -----------------------------------------------------------------------
  // updateLastLogin, validatePassword (lines 324-333)
  // -----------------------------------------------------------------------

  method UpdateLastLogin(db: Db, id: Id, now: int) returns (r: Result<()>)
    requires db.Valid()
    modifies db`users
    ensures db.Valid()
    ensures r.Ok? <==> id in old(db.users)
    ensures r.Err? ==> r.error == DatabaseError(RecordMissing) && db.users == old(db.users)
    ensures r.Ok? ==> db.users == old(db.users)[id := old(db.users)[id].(lastLogin := Some(now))]
  {
    if id !in db.users {
      return Err(DatabaseError(RecordMissing));
    }
    var u := db.users[id].(lastLogin := Some(now));
    SameIdentityValid(db.users, db.roles, db.nextId, u);
    db.users := db.users[id := u];
    r := Ok(());
  }

  /** `bcrypt.compare(password, user.password)`. */
  function ValidatePassword(u: User, password: string): (ok: bool)
    ensures ok <==> u.password == Hash(password)
  {
    Compare(password, u.password)
  }

  /** An account activated with a password accepts exactly that password. */
  lemma ActivatedAcceptsItsPassword(u: User, p: string, q: string)
    ensures ValidatePassword(Activated(u, p), q) <==> q == p
    ensures Activated(u, p).status == ACTIVE && Activated(u, p).activationToken.None?
  {
  }
}
