/** The older login path: backend/src/auth/auth.service.ts looks the account
    up by username only, and backend/src/auth/strategies/jwt.strategy.ts
    turns a token's subject back into a request user. */
module LegacyAuth {
  import opened Common
  import opened Entities
  import opened LegacyUsers
  import Users
  import Auth

  const AccountNotActiveShort := "Compte non actif"

  /** The JWT payload `{ username, sub, role }`: here the role is a column, so
      it is present. */
  datatype LegacyClaims = LegacyClaims(username: string, sub: Id, role: LegacyRole)

  datatype LegacyLoginUser = LegacyLoginUser(
    id: Id,
    username: string,
    email: string,
    firstName: Option<string>,
    lastName: Option<string>,
    company: Option<string>,
    role: LegacyRole,
    status: UserStatus)

  datatype LegacySession = LegacySession(accessToken: LegacyClaims, user: LegacyLoginUser)

  /** What `validate` attaches to the request. */
  datatype RequestUser = RequestUser(userId: Id, username: string, role: LegacyRole)

  /** `user.validatePassword(password)`: the entity compares with its hash;
      an account without a password accepts none. */
  predicate PasswordMatches(u: LegacyUser, password: string) {
    u.password == Some(Hash(password))
  }

  /** The gates of lines 17-32 on the account found by username. */
  function Gate(candidate: Option<LegacyUser>, password: string): (r: Result<Option<LegacyUser>>)
    ensures candidate.None? ==> r == Ok(None)
    ensures candidate.Some? && candidate.value.status != ACTIVE ==> r == Err(Unauthorized(Auth.AccountNotActive))
    ensures candidate.Some? && candidate.value.status == ACTIVE ==>
              r == Ok(if PasswordMatches(candidate.value, password) then candidate else None)
  {
    if candidate.None? then Ok(None)
    else if candidate.value.status != ACTIVE then Err(Unauthorized(Auth.AccountNotActive))
    else if !PasswordMatches(candidate.value, password) then Ok(None)
    else Ok(candidate)
  }

  /** An account created by `requestAccess` and never activated cannot log
      in: it is PENDING, and it has no password either. */
  lemma RequestedAccountCannotLogIn(u: LegacyUser, password: string)
    requires u.status == PENDING && u.password.None?
    ensures Gate(Some(u), password).Err?
    ensures !PasswordMatches(u, password)
  {
  }

  /** `validateUser` (lines 14-40). */
  method ValidateUser(svc: LegacyUsersService, username: string, password: string, now: int)
    returns (r: Result<Option<LegacyUser>>)
    requires svc.Valid()
    modifies svc`users
    ensures svc.Valid()
    ensures var c := old(svc.FindByUsername(username));
      && (Gate(c, password).Ok? && Gate(c, password).value.Some? ==>
            && r == Ok(Some(c.value.(password := None)))
            && svc.users == old(svc.users)[c.value.id := old(svc.users)[c.value.id].(lastLogin := Some(now))])
      && (Gate(c, password).Err? ==> r == Err(Gate(c, password).error) && svc.users == old(svc.users))
      && (Gate(c, password) == Ok(None) ==> r == Ok(None) && svc.users == old(svc.users))
  {
    var user := svc.FindByUsername(username);
    var gate := Gate(user, password);
    if gate.Err? {
      return Err(gate.error);
    }
    if gate.value.None? {
      return Ok(None);
    }
    var u := gate.value.value;
    svc.UpdateLastLogin(u.id, now);
    r := Ok(Some(u.(password := None)));
  }

  /** `validate` of the JWT strategy (lines 21-33): `findOne` already throws
      NotFound for an unknown subject, so the null check after it never
      fires; the status must read 'active'. Nothing is written. */
  function Validate(svc: LegacyUsersService, sub: Id): (r: Result<RequestUser>)
    reads svc
    requires svc.Valid()
    ensures r.Ok? <==> sub in svc.users && svc.users[sub].status == ACTIVE
    ensures sub !in svc.users ==> r == Err(NotFound(Users.UserMissing(sub)))
    ensures sub in svc.users && svc.users[sub].status != ACTIVE ==> r == Err(Unauthorized(AccountNotActiveShort))
    ensures r.Ok? ==> r.value == RequestUser(sub, svc.users[sub].username, svc.users[sub].role)
  {
    var found := svc.FindOne(sub);
    if found.Err? then Err(found.error)
    else if StatusText(found.value.status) != "active" then Err(Unauthorized(AccountNotActiveShort))
    else Ok(RequestUser(found.value.id, found.value.username, found.value.role))
  }

  /** `login` (lines 42-68). A token issued by a successful login is
      accepted by the strategy, which recovers the same user and role. */
  method Login(svc: LegacyUsersService, username: string, password: string, now: int)
    returns (r: Result<LegacySession>)
    requires svc.Valid()
    modifies svc`users
    ensures svc.Valid()
    ensures var c := old(svc.FindByUsername(username));
      && (c.None? ==> r == Err(Unauthorized(Auth.InvalidCredentials)))
      && (c.Some? && c.value.status != ACTIVE ==> r == Err(Unauthorized(Auth.AccountNotActive)))
      && ((c.Some? && c.value.status == ACTIVE && !PasswordMatches(c.value, password))
            ==> r == Err(Unauthorized(Auth.InvalidCredentials)))
      && ((c.Some? && c.value.status == ACTIVE && PasswordMatches(c.value, password)) ==> r.Ok?)
      && (r.Ok? ==>
            && c.Some?
            && r.value.accessToken == LegacyClaims(c.value.username, c.value.id, c.value.role)
            && r.value.user == LegacyLoginUser(c.value.id, c.value.username, c.value.email, c.value.firstName,
                                               c.value.lastName, c.value.company, c.value.role, c.value.status)
            && svc.users == old(svc.users)[c.value.id := old(svc.users)[c.value.id].(lastLogin := Some(now))])
    ensures r.Err? ==> svc.users == old(svc.users)
    ensures r.Ok? ==> Validate(svc, r.value.accessToken.sub)
                        == Ok(RequestUser(r.value.accessToken.sub, r.value.accessToken.username, r.value.accessToken.role))
  {
    var user := ValidateUser(svc, username, password, now);
    if user.Err? {
      return Err(user.error);
    }
    if user.value.None? {
      return Err(Unauthorized(Auth.InvalidCredentials));
    }
    var u := user.value.value;
    r := Ok(LegacySession(LegacyClaims(u.username, u.id, u.role),
                          LegacyLoginUser(u.id, u.username, u.email, u.firstName, u.lastName, u.company, u.role, u.status)));
  }
}
