/** Shared vocabulary of the back office: optional values, the service
    results with the NestJS exception kinds they raise, the abstract password
    hash, decimal rendering of integers and the string order used by the
    database's `orderBy: { name: 'asc' }`. */
module Common {

  datatype Option<+T> = None | Some(value: T)

  /** The exceptions the services throw. `DatabaseError` stands for an error
      raised by the ORM itself rather than by the service code: "P2002"
      (unique constraint), "P2003" (foreign key) or "P2025" (record to update
      does not exist). */
  datatype Failure =
    | NotFound(message: string)
    | Conflict(message: string)
    | BadRequest(message: string)
    | Unauthorized(message: string)
    | DatabaseError(code: string)

  datatype Result<+T> = Ok(value: T) | Err(error: Failure)

  const UniqueViolation := "P2002"
  const ForeignKeyViolation := "P2003"
  const RecordMissing := "P2025"

  /** The value an optional update field leaves in place: the new one when
      the request carries it, the current one otherwise. */
  function Patch<T>(field: Option<T>, current: T): T {
    if field.Some? then field.value else current
  }

  /** The same for a nullable column. */
  function PatchNullable<T>(field: Option<T>, current: Option<T>): Option<T> {
    if field.Some? then field else current
  }

  /** JavaScript truthiness of an optional string: absent and "" are false. */
  predicate Truthy(s: Option<string>) {
    s.Some? && s.value != ""
  }

  // ---------------------------------------------------------------------
  // Password hashing. bcrypt is a foreign library; the model keeps only the
  // fact the code relies on: `compare(p, hash(p))` holds, and a hash made
  // from one password does not verify another. Salts are not modelled.
  // ---------------------------------------------------------------------

  datatype PasswordHash = Hashed(secret: string)

  function Hash(p: string): PasswordHash {
    Hashed(p)
  }

  predicate Compare(p: string, h: PasswordHash) {
    h == Hashed(p)
  }

  // ---------------------------------------------------------------------
  // Decimal rendering, as JavaScript's string conversion of a non-negative
  // integer (`'_' + Date.now()`, `${diffMins}`), with its inverse.
  // ---------------------------------------------------------------------

  predicate IsDigit(c: char) {
    '0' <= c <= '9'
  }

  function DigitChar(d: nat): (c: char)
    requires d < 10
    ensures IsDigit(c) && c as int - '0' as int == d
  {
    ('0' as int + d) as char
  }

  function NatToString(n: nat): (s: string)
    ensures |s| >= 1
    ensures forall i :: 0 <= i < |s| ==> IsDigit(s[i])
    ensures s[0] == '0' ==> n == 0
    decreases n
  {
    if n < 10 then [DigitChar(n)] else NatToString(n / 10) + [DigitChar(n % 10)]
  }

  /** The value of a string of decimal digits. */
  function DecimalValue(s: string): nat
    requires forall i :: 0 <= i < |s| ==> IsDigit(s[i])
  {
    if s == [] then 0
    else
      assert IsDigit(s[|s| - 1]);
      DecimalValue(s[..|s| - 1]) * 10 + (s[|s| - 1] as int - '0' as int)
  }

  /** Rendering a number and reading it back gives the number. */
  lemma {:induction false} DecimalRoundTrip(n: nat)
    ensures DecimalValue(NatToString(n)) == n
    decreases n
  {
    var s := NatToString(n);
    if n >= 10 {
      DecimalRoundTrip(n / 10);
      assert s[..|s| - 1] == NatToString(n / 10);
    }
  }

  /** Two different numbers never render to the same string. */
  lemma NatToStringInjective(m: nat, n: nat)
    requires NatToString(m) == NatToString(n)
    ensures m == n
  {
    DecimalRoundTrip(m);
    DecimalRoundTrip(n);
  }

  // ---------------------------------------------------------------------
  // Lexicographic order on strings by code point.
  // ---------------------------------------------------------------------

  predicate LexLe(a: string, b: string)
    decreases |a|
  {
    if a == [] then true
    else if b == [] then false
    else if a[0] < b[0] then true
    else if a[0] == b[0] then LexLe(a[1..], b[1..])
    else false
  }

  lemma {:induction false} LexLeTotal(a: string, b: string)
    ensures LexLe(a, b) || LexLe(b, a)
    decreases |a|
  {
    if a != [] && b != [] && a[0] == b[0] {
      LexLeTotal(a[1..], b[1..]);
    }
  }

  lemma {:induction false} LexLeTransitive(a: string, b: string, c: string)
    requires LexLe(a, b) && LexLe(b, c)
    ensures LexLe(a, c)
    decreases |a|
  {
    if a != [] && b != [] && c != [] && a[0] == b[0] && b[0] == c[0] {
      LexLeTransitive(a[1..], b[1..], c[1..]);
    }
  }

  // ---------------------------------------------------------------------
  // Ratios of counts, as the pages and services compute percentages.
  // ---------------------------------------------------------------------

  lemma Fraction(a: real, t: real)
    requires 0.0 < t
    ensures 0.0 <= a <= t ==> 0.0 <= a / t <= 1.0
    ensures a == t ==> a / t == 1.0
  {
  }

  lemma FractionsAdd(a: real, b: real, c: real, t: real)
    requires 0.0 < t
    ensures a / t + b / t + c / t == (a + b + c) / t
  {
  }
}
