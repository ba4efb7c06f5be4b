/** The login decision of backend/src/feature/auth/auth.service.ts: the
    identifier is tried as an email and then as a username, the account
    status is checked before the password, and only a successful login
    records `lastLogin`. */
module Auth {
  import opened Common
  import opened Entities
  import opened Store
  import Users

  const InvalidCredentials := "Identifiants invalides"
  const AccountNotActive := "Votre compte n'est pas actif. Veuillez l'activer ou contacter un administrateur."

  /** A user without the password hash: what `validateUser` returns. The
      lookups do not `include` the role or the company, so neither is here. */
  datatype Principal = Principal(
    id: Id,
    username: string,
    email: string,
    firstName: Option<string>,
    lastName: Option<string>,
    status: UserStatus,
    roleId: Id,
    companyId: Option<Id>,
    lastLogin: Option<int>)

  function WithoutPassword(u: User): (p: Principal)
    ensures p.id == u.id && p.username == u.username && p.email == u.email
    ensures p.status == u.status && p.lastLogin == u.lastLogin
  {
    Principal(u.id, u.username, u.email, u.firstName, u.lastName, u.status, u.roleId, u.companyId, u.lastLogin)
  }

  /** The JWT payload `{ username, sub, role }`; signing is not modelled.
      `role` reads a relation the lookup did not load, so it is absent. */
  datatype Claims = Claims(username: string, sub: Id, role: Option<Role>)

  /** The `user` object of the login response. */
  datatype LoginUser = LoginUser(
    id: Id,
    username: string,
    email: string,
    firstName: Option<string>,
    lastName: Option<string>,
    company: Option<Company>,
    role: Option<Role>,
    status: UserStatus)

  datatype Session = Session(accessToken: Claims, user: LoginUser)

  ghost predicate UsernameTaken(users: map<Id, User>, username: string) {
    exists k :: k in users && users[k].username == username
  }

  /** The account an identifier designates: the user with that email, or
      else the user with that username. */
  ghost function Candidate(users: map<Id, User>, identifier: string): Option<User> {
    if Users.EmailTaken(users, identifier) then
      var k :| k in users && users[k].email == identifier;
      Some(users[k])
    else if UsernameTaken(users, identifier) then
      var k :| k in users && users[k].username == identifier;
      Some(users[k])
    else None
  }

  /** The two gates of lines 21-37 on a looked-up account: `Ok(None)` is the
      `null` the caller turns into "Identifiants invalides". */
  function Gate(candidate: Option<User>, password: string): (r: Result<Option<User>>)
    ensures candidate.None? ==> r == Ok(None)
    ensures candidate.Some? && candidate.value.status != ACTIVE ==> r == Err(Unauthorized(AccountNotActive))
    ensures candidate.Some? && candidate.value.status == ACTIVE ==>
              r == Ok(if Compare(password, candidate.value.password) then candidate else None)
  {
    if candidate.None? then Ok(None)
    else if candidate.value.status != ACTIVE then Err(Unauthorized(AccountNotActive))
    else if !Users.ValidatePassword(candidate.value, password) then Ok(None)
    else Ok(candidate)
  }

  /** The status is checked first: an account that is not ACTIVE gets the
      same answer whatever password is offered, so a wrong guess reveals
      nothing more than a right one. */
  lemma StatusBeforePassword(u: User, p: string, q: string)
    requires u.status != ACTIVE
    ensures Gate(Some(u), p) == Gate(Some(u), q)
    ensures Gate(Some(u), p).Err?
  {
  }

  /** Only the account's own password passes the gates, and only when active. */
  lemma GateAdmitsExactly(u: User, p: string)
    ensures Gate(Some(u), p) == Ok(Some(u)) <==> u.status == ACTIVE && u.password == Hash(p)
  {
  }

  /** Lines 16-19 find the candidate: the email lookup, and the username
      lookup only when no email matches. */
  lemma LookupFindsCandidate(db: Db, identifier: string)
    requires db.Valid()
    ensures var byEmail := Users.FindByEmail(db, identifier);
            (if byEmail.Some? then byEmail else Users.FindByUsername(db, identifier)) == Candidate(db.users, identifier)
  {
    var byEmail := Users.FindByEmail(db, identifier);
    if byEmail.None? {
      var byName := Users.FindByUsername(db, identifier);
      if byName.Some? {
        assert UsernameTaken(db.users, identifier);
      }
    }
  }

  /** Lines 16-19: the email lookup, then the username lookup. */
  method Lookup(db: Db, identifier: string) returns (c: Option<User>)
    requires db.Valid()
    ensures c == Candidate(db.users, identifier)
  {
    LookupFindsCandidate(db, identifier);
    c := Users.FindByEmail(db, identifier);
    if c.None? {
      c := Users.FindByUsername(db, identifier);
    }
  }

  /** `validateUser` (lines 14-44). */
  method ValidateUser(db: Db, identifier: string, password: string, now: int)
    returns (r: Result<Option<Principal>>)
    requires db.Valid()
    modifies db`users
    ensures db.Valid()
    ensures var c := Candidate(old(db.users), identifier);
      && (Gate(c, password).Ok? && Gate(c, password).value.Some? ==>
            && r == Ok(Some(WithoutPassword(c.value)))
            && db.users == old(db.users)[c.value.id := c.value.(lastLogin := Some(now))])
      && (Gate(c, password).Err? ==> r == Err(Gate(c, password).error) && db.users == old(db.users))
      && (Gate(c, password) == Ok(None) ==> r == Ok(None) && db.users == old(db.users))
  {
    var user := Lookup(db, identifier);
    var gate := Gate(user, password);
    if gate.Err? {
      return Err(gate.error);
    }
    if gate.value.None? {
      return Ok(None);
    }
    var u := gate.value.value;
    var _ := Users.UpdateLastLogin(db, u.id, now);
    r := Ok(Some(WithoutPassword(u)));
  }

  function ClaimsOf(p: Principal): (c: Claims)
    ensures c.sub == p.id && c.username == p.username
    ensures c.role.None?
  {
    Claims(p.username, p.id, None)
  }

  function LoginUserOf(p: Principal): (v: LoginUser)
    ensures v.id == p.id && v.username == p.username && v.email == p.email && v.status == p.status
    ensures v.firstName == p.firstName && v.lastName == p.lastName
    ensures v.role.None? && v.company.None?
  {
    LoginUser(p.id, p.username, p.email, p.firstName, p.lastName, None, None, p.status)
  }

  /** `login` (lines 46-73). */
  method Login(db: Db, identifier: string, password: string, now: int) returns (r: Result<Session>)
    requires db.Valid()
    modifies db`users
    ensures db.Valid()
    ensures var c := Candidate(old(db.users), identifier);
      && (c.None? ==> r == Err(Unauthorized(InvalidCredentials)))
      && (c.Some? && c.value.status != ACTIVE ==> r == Err(Unauthorized(AccountNotActive)))
      && ((c.Some? && c.value.status == ACTIVE && !Compare(password, c.value.password))
            ==> r == Err(Unauthorized(InvalidCredentials)))
      && ((c.Some? && c.value.status == ACTIVE && Compare(password, c.value.password)) ==> r.Ok?)
      && (r.Ok? ==>
            && c.Some? && c.value.status == ACTIVE && Compare(password, c.value.password)
            && r.value.accessToken == Claims(c.value.username, c.value.id, None)
            && r.value.user == LoginUserOf(WithoutPassword(c.value))
            && db.users == old(db.users)[c.value.id := c.value.(lastLogin := Some(now))])
    ensures r.Err? ==> db.users == old(db.users)
  {
    var user := ValidateUser(db, identifier, password, now);
    if user.Err? {
      return Err(user.error);
    }
    if user.value.None? {
      return Err(Unauthorized(InvalidCredentials));
    }
    var p := user.value.value;
    r := Ok(Session(ClaimsOf(p), LoginUserOf(p)));
  }
}
