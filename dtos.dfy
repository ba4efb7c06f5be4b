/** The request bodies checked by the validation pipe before the user
    service sees them (backend/src/feature/users/dto/create-user.dto.ts,
    request-access.dto.ts, reset-password.dto.ts). A body is rejected with
    the list of its failing properties, in declaration order, or turned into
    the typed body the service works on. */
module Dtos {
  import opened Common
  import opened Entities
  import Users

  /** A property of a JSON body as the pipe sees it: missing (or null), a
      string, or a value of another JSON type. */
  datatype Field = Absent | Text(s: string) | NonText

  /** The properties the three bodies declare. */
  datatype Property =
    | Username | Email | Password | FirstName | LastName | Company
    | RoleId | Status | Phone | UsageDescription | Token

  /** The outcome of validation: the typed body, or the failing properties. */
  datatype Validated<T> = Valid(dto: T) | Invalid(fields: seq<Property>)

  /** The report of one property: empty when its constraints hold. */
  function Flag(ok: bool, p: Property): (r: seq<Property>)
    ensures ok ==> r == []
    ensures !ok ==> r == [p]
  {
    if ok then [] else [p]
  }

  /** The properties three reports list together. */
  lemma Joined(a: seq<Property>, b: seq<Property>, c: seq<Property>)
    ensures forall q :: q in a + b + c <==> q in a || q in b || q in c
    ensures a + b + c == [] <==> a == [] && b == [] && c == []
  {
  }

  // -----------------------------------------------------------------------
  // Character classes of the password patterns
  // -----------------------------------------------------------------------

  predicate IsLower(c: char) { 'a' <= c <= 'z' }
  predicate IsUpper(c: char) { 'A' <= c <= 'Z' }
  /** `\d` in a JavaScript pattern: ASCII digits only. */
  predicate IsSpecial(c: char) {
    c == '@' || c == '$' || c == '!' || c == '%' || c == '*' || c == '?' || c == '&'
  }
  /** `[A-Za-z\d@$!%*?&]`. */
  predicate IsAllowed(c: char) { IsLower(c) || IsUpper(c) || IsDigit(c) || IsSpecial(c) }

  predicate HasLower(s: string) { exists i :: 0 <= i < |s| && IsLower(s[i]) }
  predicate HasUpper(s: string) { exists i :: 0 <= i < |s| && IsUpper(s[i]) }
  predicate HasDigit(s: string) { exists i :: 0 <= i < |s| && IsDigit(s[i]) }
  predicate HasSpecial(s: string) { exists i :: 0 <= i < |s| && IsSpecial(s[i]) }

  /** The four lookaheads `(?=.*[a-z])(?=.*[A-Z])(?=.*\d)(?=.*[@$!%*?&])`. */
  predicate HasAllClasses(s: string) { HasLower(s) && HasUpper(s) && HasDigit(s) && HasSpecial(s) }

  /** The characters `.` does not match in a JavaScript pattern. */
  predicate IsLineTerminator(c: char) {
    c == '\n' || c == '\r' || c == '\U{2028}' || c == '\U{2029}'
  }

  /** What `.*` can reach from the start: the text before the first line
      terminator. */
  function FirstLine(s: string): (r: string)
    ensures |r| <= |s| && r == s[..|r|]
    ensures forall i :: 0 <= i < |r| ==> !IsLineTerminator(r[i])
    ensures |r| < |s| ==> IsLineTerminator(s[|r|])
  {
    if s == [] || IsLineTerminator(s[0]) then [] else [s[0]] + FirstLine(s[1..])
  }

  lemma {:induction false} FirstLineWhole(s: string)
    requires forall i :: 0 <= i < |s| ==> !IsLineTerminator(s[i])
    ensures FirstLine(s) == s
  {
    if s != [] {
      FirstLineWhole(s[1..]);
    }
  }

  /** Text appended after a string never shortens what `.*` reaches in it. */
  lemma {:induction false} FirstLineGrows(s: string, t: string)
    ensures FirstLine(s) <= FirstLine(s + t)
  {
    if s != [] && !IsLineTerminator(s[0]) {
      assert (s + t)[1..] == s[1..] + t;
      FirstLineGrows(s[1..], t);
    }
  }

  lemma ClassesOfPrefix(s: string, t: string)
    requires s <= t && HasAllClasses(s)
    ensures HasAllClasses(t)
  {
    var i :| 0 <= i < |s| && IsLower(s[i]);
    assert IsLower(t[i]);
    var j :| 0 <= j < |s| && IsUpper(s[j]);
    assert IsUpper(t[j]);
    var k :| 0 <= k < |s| && IsDigit(s[k]);
    assert IsDigit(t[k]);
    var l :| 0 <= l < |s| && IsSpecial(s[l]);
    assert IsSpecial(t[l]);
  }

  // -----------------------------------------------------------------------
  // Field constraints
  // -----------------------------------------------------------------------

  /** `@IsString() @MinLength(n)` on a required property. */
  predicate StringOfLength(f: Field, n: nat) { f.Text? && |f.s| >= n }

  /** `@IsOptional() @IsString()`. */
  predicate OptionalString(f: Field) { f.Absent? || f.Text? }

  function OptionalText(f: Field): Option<string> {
    if f.Text? then Some(f.s) else None
  }

  /** The shape of an address `@IsEmail()` accepts, as far as this model
      goes: a non-empty local part, one `@`, and a domain with an inner dot,
      without spaces. */
  predicate IsEmail(s: string) {
    && (forall i :: 0 <= i < |s| ==> s[i] != ' ')
    && exists i :: 0 < i < |s| && s[i] == '@' && DomainPart(s[i + 1..])
  }

  predicate DomainPart(d: string) {
    && (forall i :: 0 <= i < |d| ==> d[i] != '@')
    && exists j :: 0 < j < |d| - 1 && d[j] == '.'
  }

  lemma EmailNotEmpty(s: string)
    requires IsEmail(s)
    ensures |s| >= 5
  {
    var i :| 0 < i < |s| && s[i] == '@' && DomainPart(s[i + 1..]);
    var j :| 0 < j < |s[i + 1..]| - 1 && s[i + 1..][j] == '.';
  }

  predicate IsHexDigit(c: char) { IsDigit(c) || 'a' <= c <= 'f' || 'A' <= c <= 'F' }

  /** `@IsUUID()` with its default of any version: 8-4-4-4-12 hex digits of
      either case separated by hyphens. */
  predicate IsUuid(s: string) {
    && |s| == 36
    && forall i :: 0 <= i < 36 ==>
         if i == 8 || i == 13 || i == 18 || i == 23 then s[i] == '-' else IsHexDigit(s[i])
  }

  /** `@IsEnum(UserStatus)`: the names of the status values. */
  function StatusNamed(s: string): (r: Option<UserStatus>)
    ensures r.Some? ==> StatusName(r.value) == s
  {
    if s == "PENDING" then Some(PENDING)
    else if s == "ACTIVE" then Some(ACTIVE)
    else if s == "INACTIVE" then Some(INACTIVE)
    else if s == "REJECTED" then Some(REJECTED)
    else None
  }

  function StatusName(st: UserStatus): string {
    match st
    case PENDING => "PENDING"
    case ACTIVE => "ACTIVE"
    case INACTIVE => "INACTIVE"
    case REJECTED => "REJECTED"
  }

  /** Every status is accepted under its own name, and only the four names
      are accepted. */
  lemma StatusNames(st: UserStatus, s: string)
    ensures StatusNamed(StatusName(st)) == Some(st)
    ensures StatusNamed(s).Some? <==> s in {"PENDING", "ACTIVE", "INACTIVE", "REJECTED"}
  {
  }

  // -----------------------------------------------------------------------
  // CreateUserDto (create-user.dto.ts, lines 12-61)
  // -----------------------------------------------------------------------

  datatype CreateUserBody = CreateUserBody(
    username: Field, email: Field, password: Field,
    firstName: Field, lastName: Field, company: Field,
    roleId: Field, status: Field, phone: Field, usageDescription: Field)

  predicate RoleIdOk(f: Field) { f.Absent? || (f.Text? && IsUuid(f.s)) }
  predicate StatusOk(f: Field) { f.Absent? || (f.Text? && StatusNamed(f.s).Some?) }
  predicate EmailOk(f: Field) { f.Text? && IsEmail(f.s) }

  /** The failing properties among the first five of a create body
      (lines 13-35), in declaration order. */
  function IdentityViolations(b: CreateUserBody): (r: seq<Property>)
    ensures r == [] <==>
      && StringOfLength(b.username, 3) && EmailOk(b.email) && StringOfLength(b.password, 6)
      && OptionalString(b.firstName) && OptionalString(b.lastName)
    ensures Username in r <==> !StringOfLength(b.username, 3)
    ensures Email in r <==> !EmailOk(b.email)
    ensures Password in r <==> !StringOfLength(b.password, 6)
    ensures FirstName in r <==> !OptionalString(b.firstName)
    ensures LastName in r <==> !OptionalString(b.lastName)
    ensures Property.Company !in r && RoleId !in r && Status !in r && Phone !in r && UsageDescription !in r
    ensures Token !in r
  {
    var u := Flag(StringOfLength(b.username, 3), Username);
    var e := Flag(EmailOk(b.email), Email);
    var p := Flag(StringOfLength(b.password, 6), Password);
    var f := Flag(OptionalString(b.firstName), FirstName);
    var l := Flag(OptionalString(b.lastName), LastName);
    Joined(u, e, p);
    Joined(u + e + p, f, l);
    u + e + p + f + l
  }

  /** The failing properties among the last five of a create body
      (lines 37-60), in declaration order. */
  function ProfileViolations(b: CreateUserBody): (r: seq<Property>)
    ensures r == [] <==>
      && OptionalString(b.company) && RoleIdOk(b.roleId) && StatusOk(b.status)
      && OptionalString(b.phone) && OptionalString(b.usageDescription)
    ensures RoleId in r <==> !RoleIdOk(b.roleId)
    ensures Status in r <==> !StatusOk(b.status)
    ensures Property.Company in r <==> !OptionalString(b.company)
    ensures Phone in r <==> !OptionalString(b.phone)
    ensures UsageDescription in r <==> !OptionalString(b.usageDescription)
    ensures Username !in r && Email !in r && Password !in r && FirstName !in r && LastName !in r && Token !in r
  {
    var c := Flag(OptionalString(b.company), Property.Company);
    var r := Flag(RoleIdOk(b.roleId), RoleId);
    var s := Flag(StatusOk(b.status), Status);
    var p := Flag(OptionalString(b.phone), Phone);
    var u := Flag(OptionalString(b.usageDescription), UsageDescription);
    Joined(c, r, s);
    Joined(c + r + s, p, u);
    c + r + s + p + u
  }

  /** The failing properties of a create body, in declaration order. */
  function CreateUserViolations(b: CreateUserBody): (r: seq<Property>)
    ensures r == [] <==>
      && StringOfLength(b.username, 3) && EmailOk(b.email) && StringOfLength(b.password, 6)
      && OptionalString(b.firstName) && OptionalString(b.lastName) && OptionalString(b.company)
      && RoleIdOk(b.roleId) && StatusOk(b.status) && OptionalString(b.phone) && OptionalString(b.usageDescription)
    ensures Username in r <==> !StringOfLength(b.username, 3)
    ensures Email in r <==> !EmailOk(b.email)
    ensures Password in r <==> !StringOfLength(b.password, 6)
    ensures FirstName in r <==> !OptionalString(b.firstName)
    ensures LastName in r <==> !OptionalString(b.lastName)
    ensures Property.Company in r <==> !OptionalString(b.company)
    ensures RoleId in r <==> !RoleIdOk(b.roleId)
    ensures Status in r <==> !StatusOk(b.status)
    ensures Phone in r <==> !OptionalString(b.phone)
    ensures UsageDescription in r <==> !OptionalString(b.usageDescription)
    ensures Token !in r
  {
    IdentityViolations(b) + ProfileViolations(b)
  }

  /** The typed body the user service receives; `idOf` reads a role UUID as
      the store's identifier. */
  function ValidateCreateUser(b: CreateUserBody, idOf: string -> Id): (r: Validated<Users.CreateUserDto>)
    ensures r.Valid? <==> CreateUserViolations(b) == []
    ensures r.Invalid? ==> r.fields == CreateUserViolations(b) && r.fields != []
    ensures r.Valid? ==>
      && |r.dto.username| >= 3 && IsEmail(r.dto.email) && |r.dto.password| >= 6
      && r.dto.username == b.username.s && r.dto.email == b.email.s && r.dto.password == b.password.s
      && r.dto.firstName == OptionalText(b.firstName) && r.dto.lastName == OptionalText(b.lastName)
      && r.dto.company == OptionalText(b.company) && r.dto.phone == OptionalText(b.phone)
      && r.dto.usageDescription == OptionalText(b.usageDescription)
      && (b.roleId.Text? ==> r.dto.roleId == Some(idOf(b.roleId.s)))
      && (b.roleId.Absent? ==> r.dto.roleId.None?)
      && (b.status.Text? ==> r.dto.status.Some? && StatusName(r.dto.status.value) == b.status.s)
      && (b.status.Absent? ==> r.dto.status.None?)
  {
    var errors := CreateUserViolations(b);
    if errors != [] then Invalid(errors)
    else
      Valid(Users.CreateUserDto(
        b.username.s, b.email.s, b.password.s,
        OptionalText(b.firstName), OptionalText(b.lastName), OptionalText(b.company),
        if b.roleId.Text? then Some(idOf(b.roleId.s)) else None,
        if b.status.Text? then StatusNamed(b.status.s) else None,
        OptionalText(b.phone), OptionalText(b.usageDescription)))
  }

  /** A body that passes the create checks also passes the service's
      precondition on updates when sent as an update with the same fields. */
  lemma CreateImpliesUpdateValid(b: CreateUserBody, idOf: string -> Id)
    requires ValidateCreateUser(b, idOf).Valid?
    ensures var d := ValidateCreateUser(b, idOf).dto;
      Users.ValidUpdate(Users.UpdateUserDto(Some(d.username), Some(d.email), Some(d.password),
        d.firstName, d.lastName, d.roleId, d.status, d.phone, d.usageDescription))
  {
    EmailNotEmpty(b.email.s);
  }

  // -----------------------------------------------------------------------
  // RequestAccessDto (request-access.dto.ts, lines 9-38)
  // -----------------------------------------------------------------------

  datatype RequestAccessBody = RequestAccessBody(
    firstName: Field, lastName: Field, email: Field, company: Field, phone: Field, usageDescription: Field)

  /** The failing properties among the first three of a request-access
      body (lines 10-22), in declaration order. */
  function ContactViolations(b: RequestAccessBody): (r: seq<Property>)
    ensures r == [] <==> StringOfLength(b.firstName, 2) && StringOfLength(b.lastName, 2) && EmailOk(b.email)
    ensures FirstName in r <==> !StringOfLength(b.firstName, 2)
    ensures LastName in r <==> !StringOfLength(b.lastName, 2)
    ensures Email in r <==> !EmailOk(b.email)
    ensures Property.Company !in r && Phone !in r && UsageDescription !in r
    ensures Username !in r && Password !in r && RoleId !in r && Status !in r && Token !in r
  {
    var f := Flag(StringOfLength(b.firstName, 2), FirstName);
    var l := Flag(StringOfLength(b.lastName, 2), LastName);
    var e := Flag(EmailOk(b.email), Email);
    Joined(f, l, e);
    f + l + e
  }

  /** The failing properties among the last three of a request-access
      body (lines 24-37), in declaration order. */
  function DetailViolations(b: RequestAccessBody): (r: seq<Property>)
    ensures r == [] <==> StringOfLength(b.company, 2) && OptionalString(b.phone) && StringOfLength(b.usageDescription, 10)
    ensures Property.Company in r <==> !StringOfLength(b.company, 2)
    ensures Phone in r <==> !OptionalString(b.phone)
    ensures UsageDescription in r <==> !StringOfLength(b.usageDescription, 10)
    ensures FirstName !in r && LastName !in r && Email !in r
    ensures Username !in r && Password !in r && RoleId !in r && Status !in r && Token !in r
  {
    var c := Flag(StringOfLength(b.company, 2), Property.Company);
    var p := Flag(OptionalString(b.phone), Phone);
    var u := Flag(StringOfLength(b.usageDescription, 10), UsageDescription);
    Joined(c, p, u);
    c + p + u
  }

  /** The failing properties of a request-access body, in declaration
      order (lines 10-37). */
  function RequestAccessViolations(b: RequestAccessBody): (r: seq<Property>)
    ensures r == [] <==>
      && StringOfLength(b.firstName, 2) && StringOfLength(b.lastName, 2) && EmailOk(b.email)
      && StringOfLength(b.company, 2) && OptionalString(b.phone) && StringOfLength(b.usageDescription, 10)
    ensures Email in r <==> !EmailOk(b.email)
    ensures Property.Company in r <==> !StringOfLength(b.company, 2)
    ensures UsageDescription in r <==> !StringOfLength(b.usageDescription, 10)
    ensures FirstName in r <==> !StringOfLength(b.firstName, 2)
    ensures LastName in r <==> !StringOfLength(b.lastName, 2)
    ensures Phone in r <==> !OptionalString(b.phone)
    ensures Username !in r && Password !in r && RoleId !in r && Status !in r && Token !in r
  {
    ContactViolations(b) + DetailViolations(b)
  }

  function ValidateRequestAccess(b: RequestAccessBody): (r: Validated<Users.RequestAccessDto>)
    ensures r.Valid? <==> RequestAccessViolations(b) == []
    ensures r.Invalid? ==> r.fields == RequestAccessViolations(b) && r.fields != []
    ensures r.Valid? ==>
      && |r.dto.firstName| >= 2 && |r.dto.lastName| >= 2 && |r.dto.company| >= 2
      && |r.dto.usageDescription| >= 10 && IsEmail(r.dto.email)
      && r.dto.firstName == b.firstName.s && r.dto.lastName == b.lastName.s
      && r.dto.email == b.email.s && r.dto.company == b.company.s && r.dto.phone == OptionalText(b.phone)
      && r.dto.usageDescription == b.usageDescription.s
  {
    var errors := RequestAccessViolations(b);
    if errors != [] then Invalid(errors)
    else
      Valid(Users.RequestAccessDto(b.firstName.s, b.lastName.s, b.email.s, b.company.s,
                                   OptionalText(b.phone), b.usageDescription.s))
  }

  /** An accepted request always names a company: the service's
      get-or-create on the company name always runs. */
  lemma RequestAccessNamesCompany(b: RequestAccessBody)
    requires ValidateRequestAccess(b).Valid?
    ensures Truthy(Some(ValidateRequestAccess(b).dto.company))
  {
  }

  // -----------------------------------------------------------------------
  // ResetPasswordDto (reset-password.dto.ts, lines 4-29)
  // -----------------------------------------------------------------------

  /** The pattern of line 22, which is anchored at the start only: the
      lookaheads scan the first line, and only the first character must be
      one of `[A-Za-z\d@$!%*?&]`. */
  predicate ServerPatternMatches(p: string) {
    HasAllClasses(FirstLine(p)) && |p| > 0 && IsAllowed(p[0])
  }

  /** `@IsString() @IsNotEmpty() @MinLength(8) @Matches(...)` on the password. */
  predicate ServerPasswordOk(f: Field) {
    f.Text? && f.s != "" && |f.s| >= 8 && ServerPatternMatches(f.s)
  }

  datatype ResetPasswordBody = ResetPasswordBody(token: Field, password: Field)
  datatype ResetPassword = ResetPassword(token: string, password: string)

  /** `@IsString() @IsNotEmpty()` on the token, then the password rule. */
  function ResetPasswordViolations(b: ResetPasswordBody): (r: seq<Property>)
    ensures r == [] <==> b.token.Text? && b.token.s != "" && ServerPasswordOk(b.password)
    ensures Token in r <==> !(b.token.Text? && b.token.s != "")
    ensures Password in r <==> !ServerPasswordOk(b.password)
    ensures r != [] ==> r[0] == (if Token in r then Token else Password)
  {
    Flag(b.token.Text? && b.token.s != "", Token) + Flag(ServerPasswordOk(b.password), Password)
  }

  function ValidateResetPassword(b: ResetPasswordBody): (r: Validated<ResetPassword>)
    ensures r.Valid? <==> ResetPasswordViolations(b) == []
    ensures r.Invalid? ==> r.fields == ResetPasswordViolations(b) && r.fields != []
    ensures r.Valid? ==> r.dto.token != "" && |r.dto.password| >= 8 && HasAllClasses(r.dto.password)
  {
    var errors := ResetPasswordViolations(b);
    if errors != [] then Invalid(errors)
    else
      assert FirstLine(b.password.s) <= b.password.s;
      ClassesOfPrefix(FirstLine(b.password.s), b.password.s);
      Valid(ResetPassword(b.token.s, b.password.s))
  }

  /** Only the first character is restricted: whatever follows an accepted
      password, the longer string is accepted too. */
  lemma ServerPatternIgnoresTail(p: string, t: string)
    requires ServerPasswordOk(Text(p))
    ensures ServerPasswordOk(Text(p + t))
  {
    FirstLineGrows(p, t);
    ClassesOfPrefix(FirstLine(p), FirstLine(p + t));
    assert (p + t)[0] == p[0];
  }

  /** A password with a space, outside the intended character set, is
      accepted by the server rule. */
  lemma ServerAcceptsSpace()
    ensures ServerPasswordOk(Text("Aa1!" + "aaa b"))
  {
    var head, tail := "Aa1!", "aaa b";
    FirstLineWhole(head);
    assert IsUpper(head[0]) && IsLower(head[1]) && IsDigit(head[2]) && IsSpecial(head[3]);
    FirstLineGrows(head, tail);
    ClassesOfPrefix(head, FirstLine(head + tail));
  }
}
