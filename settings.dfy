/** Settings (backend/src/feature/settings/settings.service.ts): a key/value
    table. `findAll` folds the rows into one record, `upsert` writes one key
    and `updateMany` writes several, one after the other. */
module Settings {
  import opened Common
  import opened Entities
  import opened Store

  function SettingMissing(key: string): string {
    "Paramètre avec la clé " + key + " non trouvé"
  }

  // -----------------------------------------------------------------------
  // findAll (lines 8-14)
  // -----------------------------------------------------------------------

  /** The keys stored in a list of rows. */
  function KeysOf(rows: seq<Setting>): set<string> {
    set s | s in rows :: s.key
  }

  /** The `reduce` of findAll: each row in turn writes its value under its
      key into the accumulator. The keys of the result are the stored keys. */
  function Fold(rows: seq<Setting>): (m: map<string, string>)
    ensures m.Keys == KeysOf(rows)
  {
    if rows == [] then map[]
    else
      var init := rows[..|rows| - 1];
      var last := rows[|rows| - 1];
      assert rows == init + [last];
      assert KeysOf(rows) == KeysOf(init) + {last.key};
      Fold(init)[last.key := last.value]
  }

  /** With unique keys, every stored key maps to its own row's value. */
  lemma {:induction false} FoldValues(rows: seq<Setting>)
    requires SettingKeysUnique(rows)
    ensures forall s :: s in rows ==> Fold(rows)[s.key] == s.value
  {
    if rows != [] {
      var n := |rows| - 1;
      var init := rows[..n];
      assert rows == init + [rows[n]];
      assert SettingKeysUnique(init);
      FoldValues(init);
      forall s | s in rows ensures Fold(rows)[s.key] == s.value {
        if s != rows[n] {
          assert s in init;
          var i :| 0 <= i < n && init[i] == s;
          assert rows[i].key != rows[n].key;
        }
      }
    }
  }

  /** The whole table as one record: exactly the stored keys, each with its value. */
  function FindAll(db: Db): (r: map<string, string>)
    reads db
    requires SettingKeysUnique(db.settings)
    ensures r.Keys == KeysOf(db.settings)
    ensures forall s :: s in db.settings ==> r[s.key] == s.value
  {
    FoldValues(db.settings);
    Fold(db.settings)
  }

  // -----------------------------------------------------------------------
  // findOne (lines 16-26)
  // -----------------------------------------------------------------------

  /** `findUnique({ where: { key } })`. */
  function Lookup(rows: seq<Setting>, key: string): (r: Option<Setting>)
    ensures r.Some? ==> r.value in rows && r.value.key == key
    ensures r.None? <==> forall i :: 0 <= i < |rows| ==> rows[i].key != key
  {
    if rows == [] then None
    else if rows[0].key == key then Some(rows[0])
    else
      var r := Lookup(rows[1..], key);
      assert forall i :: 1 <= i < |rows| ==> rows[i] == rows[1..][i - 1];
      r
  }

  function FindOne(db: Db, key: string): (r: Result<Setting>)
    reads db
    ensures r.Err? <==> forall i :: 0 <= i < |db.settings| ==> db.settings[i].key != key
    ensures r.Err? ==> r.error == NotFound(SettingMissing(key))
    ensures r.Ok? ==> r.value in db.settings && r.value.key == key
  {
    match Lookup(db.settings, key)
    case None => Err(NotFound(SettingMissing(key)))
    case Some(s) => Ok(s)
  }

  /** findOne and findAll agree: findOne finds a key exactly when findAll
      lists it, with the same value. */
  lemma FindOneMatchesFindAll(db: Db, key: string)
    requires SettingKeysUnique(db.settings)
    ensures FindOne(db, key).Ok? <==> key in FindAll(db)
    ensures FindOne(db, key).Ok? ==> FindOne(db, key).value.value == FindAll(db)[key]
  {
    var r := FindOne(db, key);
    if r.Ok? {
      var i :| 0 <= i < |db.settings| && db.settings[i] == r.value;
      assert db.settings[i].key == key;
    }
  }

  // -----------------------------------------------------------------------
  // upsert (lines 28-34)
  // -----------------------------------------------------------------------

  /** The table after `upsert({ where: { key }, update: { value }, create })`:
      the row with that key gets the new value, or a new row is appended. */
  function Upserted(rows: seq<Setting>, key: string, value: string): (r: seq<Setting>)
    ensures Setting(key, value) in r
    ensures forall s :: s in r ==> s == Setting(key, value) || s in rows
    ensures forall s :: s in rows && s.key != key ==> s in r
  {
    if rows == [] then [Setting(key, value)]
    else if rows[0].key == key then
      assert forall s :: s in rows[1..] ==> s in rows;
      [Setting(key, value)] + rows[1..]
    else
      assert forall s :: s in rows ==> s == rows[0] || s in rows[1..];
      [rows[0]] + Upserted(rows[1..], key, value)
  }

  /** An upsert keeps the keys unique. */
  lemma {:induction false} UpsertedUnique(rows: seq<Setting>, key: string, value: string)
    requires SettingKeysUnique(rows)
    ensures SettingKeysUnique(Upserted(rows, key, value))
  {
    if rows == [] {
    } else if rows[0].key == key {
      forall i, j | 0 <= i < j < |rows| ensures Upserted(rows, key, value)[i].key != Upserted(rows, key, value)[j].key {
        assert rows[i].key != rows[j].key;
      }
    } else {
      var tail := rows[1..];
      assert forall i :: 0 <= i < |tail| ==> tail[i] == rows[i + 1];
      UpsertedUnique(tail, key, value);
      var t := Upserted(tail, key, value);
      var r := [rows[0]] + t;
      forall j | 0 <= j < |t| ensures rows[0].key != t[j].key {
        assert t[j] in t;
        if t[j] != Setting(key, value) {
          var i :| 0 <= i < |tail| && tail[i] == t[j];
          assert rows[i + 1] == t[j];
        }
      }
      forall i, j | 0 <= i < j < |r| ensures r[i].key != r[j].key {
        assert r[j] == t[j - 1];
        if i > 0 {
          assert r[i] == t[i - 1];
        }
      }
    }
  }

  /** Writes one key; every other key keeps its row. */
  method Upsert(db: Db, key: string, value: string) returns (s: Setting)
    requires db.Valid()
    modifies db`settings
    ensures db.Valid()
    ensures s == Setting(key, value)
    ensures db.settings == Upserted(old(db.settings), key, value)
  {
    UpsertedUnique(db.settings, key, value);
    db.settings := Upserted(db.settings, key, value);
    s := Setting(key, value);
  }

  /** On the record findAll returns, an upsert is a map update. */
  lemma UpsertedFold(rows: seq<Setting>, key: string, value: string)
    requires SettingKeysUnique(rows)
    ensures Fold(Upserted(rows, key, value)) == Fold(rows)[key := value]
  {
    var r := Upserted(rows, key, value);
    var before, after := Fold(rows), Fold(r);
    UpsertedUnique(rows, key, value);
    FoldValues(rows);
    FoldValues(r);
    assert after.Keys == before.Keys + {key} by {
      forall k | k in after.Keys ensures k in before.Keys + {key} {
        var s :| s in r && s.key == k;
      }
      forall k | k in before.Keys ensures k in after.Keys {
        var s :| s in rows && s.key == k;
        if k != key {
          assert s in r;
        }
      }
    }
    forall k | k in after ensures after[k] == before[key := value][k] {
      if k != key {
        var s :| s in r && s.key == k;
      }
    }
  }

  /** After `upsert(k, v)`, `findOne(k)` returns the value `v`. */
  lemma {:induction false} UpsertThenFindOne(rows: seq<Setting>, key: string, value: string)
    ensures Lookup(Upserted(rows, key, value), key) == Some(Setting(key, value))
  {
    if rows != [] && rows[0].key != key {
      UpsertThenFindOne(rows[1..], key, value);
    }
  }

  /** `upsert(k, v)` leaves what `findOne` answers for every other key unchanged. */
  lemma {:induction false} UpsertKeepsOthers(rows: seq<Setting>, key: string, value: string, other: string)
    requires other != key
    ensures Lookup(Upserted(rows, key, value), other) == Lookup(rows, other)
  {
    if rows != [] && rows[0].key != key && rows[0].key != other {
      UpsertKeepsOthers(rows[1..], key, value, other);
    }
  }

  /** Upserting the same pair twice is the same as upserting it once. */
  lemma {:induction false} UpsertIdempotent(rows: seq<Setting>, key: string, value: string)
    ensures Upserted(Upserted(rows, key, value), key, value) == Upserted(rows, key, value)
  {
    if rows != [] && rows[0].key != key {
      UpsertIdempotent(rows[1..], key, value);
    }
  }

  // -----------------------------------------------------------------------
  // updateMany (lines 36-47)
  // -----------------------------------------------------------------------

  /** The record of a list of (key, value) entries, later entries winning. */
  function EntriesMap(entries: seq<(string, string)>): (m: map<string, string>)
    ensures m.Keys == set e | e in entries :: e.0
  {
    if entries == [] then map[]
    else
      var init := entries[..|entries| - 1];
      var last := entries[|entries| - 1];
      assert entries == init + [last];
      assert (set e | e in entries :: e.0) == (set e | e in init :: e.0) + {last.0};
      EntriesMap(init)[last.0 := last.1]
  }

  /** The entries of a record (`Object.entries`) have distinct keys. */
  predicate EntryKeysDistinct(entries: seq<(string, string)>) {
    forall i, j :: 0 <= i < j < |entries| ==> entries[i].0 != entries[j].0
  }

  lemma {:induction false} EntriesMapValues(entries: seq<(string, string)>)
    requires EntryKeysDistinct(entries)
    ensures forall e :: e in entries ==> EntriesMap(entries)[e.0] == e.1
  {
    if entries != [] {
      var n := |entries| - 1;
      var init := entries[..n];
      assert entries == init + [entries[n]];
      assert EntryKeysDistinct(init);
      EntriesMapValues(init);
      forall e | e in entries ensures EntriesMap(entries)[e.0] == e.1 {
        if e != entries[n] {
          assert e in init;
          var i :| 0 <= i < n && init[i] == e;
          assert entries[i].0 != entries[n].0;
        }
      }
    }
  }

  /** One more upsert extends the record the earlier ones built. */
  lemma UpsertStep(stored: map<string, string>, written: map<string, string>, key: string, value: string)
    ensures (stored + written)[key := value] == stored + written[key := value]
  {
  }

  /** Upserts every entry of the record in turn (the `Promise.all` of the
      source, taken in order) and returns the whole table as findAll does:
      the old record overwritten by the entries. */
  method UpdateMany(db: Db, entries: seq<(string, string)>) returns (r: map<string, string>)
    requires db.Valid()
    requires EntryKeysDistinct(entries)
    modifies db`settings
    ensures db.Valid()
    ensures r == FindAll(db)
    ensures r == Fold(old(db.settings)) + EntriesMap(entries)
    ensures forall e :: e in entries ==> r[e.0] == e.1
  {
    ghost var stored := Fold(db.settings);
    var i := 0;
    while i < |entries|
      invariant 0 <= i <= |entries|
      invariant db.Valid()
      invariant Fold(db.settings) == stored + EntriesMap(entries[..i])
    {
      var (key, value) := entries[i];
      UpsertedFold(db.settings, key, value);
      UpsertStep(stored, EntriesMap(entries[..i]), key, value);
      assert entries[..i + 1] == entries[..i] + [entries[i]];
      var _ := Upsert(db, key, value);
      i := i + 1;
    }
    assert entries[..i] == entries;
    EntriesMapValues(entries);
    r := FindAll(db);
  }
}
