/** API keys (backend/src/feature/api-keys/api-keys.service.ts): a key is
    "sk_" followed by the lowercase hexadecimal rendering of 32 random bytes;
    the rest is a plain table with NotFound on unknown identifiers. */
module ApiKeys {
  import opened Common
  import opened Entities
  import opened Ordering
  import opened Store

  type Byte = x: int | 0 <= x < 256

  const KeyPrefix := "sk_"
  const KeyBytes := 32

  function ApiKeyMissing(id: Id): string {
    "Clé API avec l'ID " + NatToString(id) + " non trouvée"
  }

  function CreatedAt(k: ApiKey): int { k.createdAt }

  // -----------------------------------------------------------------------
  // Key format (line 11): `sk_${crypto.randomBytes(32).toString('hex')}`
  // -----------------------------------------------------------------------

  /** A character `Buffer.toString('hex')` can produce. */
  predicate IsHexChar(c: char) {
    '0' <= c <= '9' || 'a' <= c <= 'f'
  }

  function HexDigit(n: int): (c: char)
    requires 0 <= n < 16
    ensures IsHexChar(c)
  {
    if n < 10 then ('0' as int + n) as char else ('a' as int + n - 10) as char
  }

  function HexValue(c: char): (n: int)
    requires IsHexChar(c)
    ensures 0 <= n < 16 && HexDigit(n) == c
  {
    if c <= '9' then c as int - '0' as int else c as int - 'a' as int + 10
  }

  /** Each byte as two lowercase hex digits, high nibble first. */
  function Hex(bytes: seq<Byte>): (s: string)
    ensures |s| == 2 * |bytes|
    ensures forall i :: 0 <= i < |s| ==> IsHexChar(s[i])
  {
    if bytes == [] then ""
    else [HexDigit(bytes[0] / 16), HexDigit(bytes[0] % 16)] + Hex(bytes[1..])
  }

  /** The bytes a hex string of even length spells. */
  function Unhex(s: string): (bytes: seq<Byte>)
    requires |s| % 2 == 0
    requires forall i :: 0 <= i < |s| ==> IsHexChar(s[i])
    ensures |bytes| == |s| / 2
  {
    if s == "" then []
    else [HexValue(s[0]) * 16 + HexValue(s[1])] + Unhex(s[2..])
  }

  lemma {:induction false} UnhexHex(bytes: seq<Byte>)
    ensures Unhex(Hex(bytes)) == bytes
  {
    if bytes != [] {
      var b := bytes[0];
      var s := Hex(bytes);
      assert s[2..] == Hex(bytes[1..]);
      assert HexValue(HexDigit(b / 16)) == b / 16 && HexValue(HexDigit(b % 16)) == b % 16;
      UnhexHex(bytes[1..]);
    }
  }

  lemma {:induction false} HexUnhex(s: string)
    requires |s| % 2 == 0
    requires forall i :: 0 <= i < |s| ==> IsHexChar(s[i])
    ensures Hex(Unhex(s)) == s
  {
    if s != "" {
      var b := HexValue(s[0]) * 16 + HexValue(s[1]);
      assert b / 16 == HexValue(s[0]) && b % 16 == HexValue(s[1]);
      HexUnhex(s[2..]);
      assert Unhex(s)[1..] == Unhex(s[2..]);
    }
  }

  /** The key `create` stores for the given random bytes. */
  function GenerateKey(random: seq<Byte>): (key: string)
    requires |random| == KeyBytes
    ensures |key| == 67
    ensures key[..3] == KeyPrefix
    ensures forall i :: 3 <= i < |key| ==> IsHexChar(key[i])
  {
    KeyPrefix + Hex(random)
  }

  /** Reads a key back: its random bytes, when it has the generated shape. */
  function ParseKey(key: string): (r: Option<seq<Byte>>)
    ensures r.Some? ==> |r.value| == KeyBytes
  {
    if |key| == 67 && key[..3] == KeyPrefix && forall i :: 3 <= i < |key| ==> IsHexChar(key[i]) then
      Some(Unhex(key[3..]))
    else None
  }

  /** Every generated key parses back to its bytes, and every key of the
      generated shape is generated from the bytes it parses to: distinct
      random bytes give distinct keys. */
  lemma KeyRoundTrip(random: seq<Byte>, key: string)
    requires |random| == KeyBytes
    ensures ParseKey(GenerateKey(random)) == Some(random)
    ensures ParseKey(key).Some? ==> GenerateKey(ParseKey(key).value) == key
  {
    var k := GenerateKey(random);
    assert k[3..] == Hex(random);
    UnhexHex(random);
    if ParseKey(key).Some? {
      HexUnhex(key[3..]);
      assert key == key[..3] + key[3..];
    }
  }

  // -----------------------------------------------------------------------
  // create (lines 10-20)
  // -----------------------------------------------------------------------

  /** Stores exactly the given name, the generated key and the optional
      owner; an owner that is not a user violates the foreign key. */
  method Create(db: Db, name: string, userId: Option<Id>, random: seq<Byte>, now: int) returns (r: Result<ApiKey>)
    requires db.Valid()
    requires |random| == KeyBytes
    modifies db`apiKeys, db`nextId
    ensures db.Valid()
    ensures r.Ok? <==> userId.None? || userId.value in db.users
    ensures r.Err? ==> r.error == DatabaseError(ForeignKeyViolation) && db.apiKeys == old(db.apiKeys)
    ensures r.Ok? ==>
      && r.value == ApiKey(old(db.nextId), name, GenerateKey(random), userId, None, now)
      && r.value.id !in old(db.apiKeys) && db.apiKeys == old(db.apiKeys)[r.value.id := r.value]
  {
    if userId.Some? && userId.value !in db.users {
      return Err(DatabaseError(ForeignKeyViolation));
    }
    var id := db.FreshId();
    var k := ApiKey(id, name, GenerateKey(random), userId, None, now);
    db.apiKeys := db.apiKeys[id := k];
    r := Ok(k);
  }

  // -----------------------------------------------------------------------
  // findAll (lines 22-30)
  // -----------------------------------------------------------------------

  /** The `where` of findAll: the owner's keys, or every key without an owner filter. */
  predicate Owned(userId: Option<Id>, k: ApiKey) {
    userId.None? || k.userId == userId
  }

  function OwnedBy(userId: Option<Id>): (p: ApiKey -> bool)
    ensures forall k :: p(k) <==> Owned(userId, k)
  {
    (k: ApiKey) => Owned(userId, k)
  }

  lemma CountOwned(m: map<Id, ApiKey>, bound: nat, userId: Option<Id>)
    requires ApiKeysValid(m, bound)
    ensures |set k | k in m && Owned(userId, m[k])| == |Where(m, bound, OwnedBy(userId))|
  {
    assert (set k | k in m && Owned(userId, m[k])) == MatchingKeys(m, bound, OwnedBy(userId));
  }

  /** The user's keys, or all keys when no user is given, newest first. */
  function FindAll(db: Db, userId: Option<Id>): (r: seq<ApiKey>)
    reads db
    requires ApiKeysValid(db.apiKeys, db.nextId)
    ensures Descending(r, CreatedAt)
    ensures forall x :: x in r <==> x in db.apiKeys.Values && Owned(userId, x)
    ensures |r| == |set k | k in db.apiKeys && Owned(userId, db.apiKeys[k])|
  {
    var p := OwnedBy(userId);
    var kept := Where(db.apiKeys, db.nextId, p);
    var r := SortDescending(kept, CreatedAt);
    forall x | x in db.apiKeys.Values && p(x) ensures x in kept {
      var k :| k in db.apiKeys && db.apiKeys[k] == x;
    }
    forall x | x in kept ensures x in db.apiKeys.Values && p(x) {
      var i :| 0 <= i < |kept| && kept[i] == x;
    }
    CountOwned(db.apiKeys, db.nextId, userId);
    r
  }

  /** Without an owner filter findAll lists every key. */
  lemma FindAllUnfiltered(db: Db)
    requires ApiKeysValid(db.apiKeys, db.nextId)
    ensures |FindAll(db, None)| == |db.apiKeys|
  {
    var none: Option<Id> := None;
    assert (set k | k in db.apiKeys && Owned(none, db.apiKeys[k])) == db.apiKeys.Keys;
  }

  // -----------------------------------------------------------------------
  // findOne (lines 32-41), updateLastUsed (lines 43-50), remove (lines 52-57)
  // -----------------------------------------------------------------------

  function FindOne(db: Db, id: Id): (r: Result<ApiKey>)
    reads db
    ensures r.Ok? <==> id in db.apiKeys
    ensures r.Ok? ==> r.value == db.apiKeys[id]
    ensures r.Err? ==> r.error == NotFound(ApiKeyMissing(id))
  {
    if id in db.apiKeys then Ok(db.apiKeys[id]) else Err(NotFound(ApiKeyMissing(id)))
  }

  /** Stamps `lastUsed`; an unknown id makes the update itself fail (no
      findOne guard here). */
  method UpdateLastUsed(db: Db, id: Id, now: int) returns (r: Result<()>)
    requires db.Valid()
    modifies db`apiKeys
    ensures db.Valid()
    ensures r.Ok? <==> id in old(db.apiKeys)
    ensures r.Err? ==> r.error == DatabaseError(RecordMissing) && db.apiKeys == old(db.apiKeys)
    ensures r.Ok? ==> db.apiKeys == old(db.apiKeys)[id := old(db.apiKeys)[id].(lastUsed := Some(now))]
  {
    if id !in db.apiKeys {
      return Err(DatabaseError(RecordMissing));
    }
    db.apiKeys := db.apiKeys[id := db.apiKeys[id].(lastUsed := Some(now))];
    r := Ok(());
  }

  method Remove(db: Db, id: Id) returns (r: Result<()>)
    requires db.Valid()
    modifies db`apiKeys
    ensures db.Valid()
    ensures r.Ok? <==> id in old(db.apiKeys)
    ensures r.Err? ==> r.error == NotFound(ApiKeyMissing(id)) && db.apiKeys == old(db.apiKeys)
    ensures r.Ok? ==> db.apiKeys == old(db.apiKeys) - {id}
  {
    var found := FindOne(db, id);
    if found.Err? {
      return Err(found.error);
    }
    db.apiKeys := db.apiKeys - {id};
    r := Ok(());
  }
}
