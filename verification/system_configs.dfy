/**
 * The system_configs table and SystemConfigModel
 * (server/back-end/db/models/system-configs.js): string values under
 * unique keys, with boolean flags stored as the strings 'true'/'false'.
 */
module SystemConfigs {
  import opened Common

  datatype SystemConfig = SystemConfig(key: string, value: string, description: Option<string>, updatedAt: int)

  predicate KeysDistinct(rows: seq<SystemConfig>)
  {
    forall i, j :: 0 <= i < j < |rows| ==> rows[i].key != rows[j].key
  }

  /** ORDER BY key: byte order of the UTF-8 text, which is code point order. */
  predicate KeyBefore(a: SystemConfig, b: SystemConfig)
  {
    StrLess(a.key, b.key)
  }

  /** How getBoolean reads a stored value. */
  predicate BoolOf(value: string)
  {
    value == "true" || value == "1"
  }

  /** How setBoolean writes a flag. */
  function BoolText(b: bool): string
  {
    if b then "true" else "false"
  }

  /** `description || null`: an empty description is stored as NULL. */
  function StoredDescription(d: Option<string>): Option<string>
  {
    if d.Some? && |d.value| > 0 then d else None
  }

  class SystemConfigTable {
    var rows: seq<SystemConfig>

    ghost predicate Valid()
      reads this
    {
      KeysDistinct(rows)
    }

    constructor ()
      ensures Valid() && rows == []
    {
      rows := [];
    }

    /** findByKey: the row under `key`, or nothing. */
    function FindByKey(key: string): (r: Option<SystemConfig>)
      reads this
      ensures r.Some? ==> r.value in rows && r.value.key == key
      ensures r.None? ==> forall k :: 0 <= k < |rows| ==> rows[k].key != key
    {
      match FindIndex(rows, (c: SystemConfig) => c.key == key)
        case None => None
        case Some(i) => Some(rows[i])
    }

    /** findAll: every row, ordered by key. */
    function FindAll(): (r: seq<SystemConfig>)
      reads this
      ensures multiset(r) == multiset(rows)
    {
      SortBy(rows, KeyBefore)
    }

    /** getBoolean: the default for a missing key, else whether the value is 'true' or '1'. */
    function GetBoolean(key: string, defaultValue: bool): (b: bool)
      reads this
      ensures FindByKey(key).None? ==> b == defaultValue
      ensures FindByKey(key).Some? ==> (b <==> FindByKey(key).value.value in {"true", "1"})
    {
      match FindByKey(key)
        case None => defaultValue
        case Some(c) => BoolOf(c.value)
    }

    /** upsert: inserts the key, or overwrites value and description of the existing row. */
    method Upsert(key: string, value: string, description: Option<string>, now: int) returns (r: Option<SystemConfig>)
      requires Valid()
      modifies this
      ensures Valid()
      ensures r == Some(SystemConfig(key, value, StoredDescription(description), now)) && r == FindByKey(key)
      ensures forall c :: c in old(rows) && c.key != key ==> c in rows
      ensures forall c :: c in rows && c.key != key ==> c in old(rows)
    {
      var row := SystemConfig(key, value, StoredDescription(description), now);
      var i := FindIndex(rows, (c: SystemConfig) => c.key == key);
      if i.Some? {
        rows := rows[i.value := row];
        forall c | c in old(rows) && c.key != key ensures c in rows {
          var k :| 0 <= k < |old(rows)| && old(rows)[k] == c;
          assert rows[k] == c;
        }
        FindUnique(rows, key, i.value);
      } else {
        rows := rows + [row];
        FindUnique(rows, key, |rows| - 1);
      }
      r := FindByKey(key);
    }

    /** update: rewrites the value of an existing key; a missing key changes nothing and yields nothing. */
    method Update(key: string, value: string, now: int) returns (r: Option<SystemConfig>)
      requires Valid()
      modifies this
      ensures Valid()
      ensures old(FindByKey(key)).None? ==> rows == old(rows) && r.None?
      ensures old(FindByKey(key)).Some? ==>
        r == Some(old(FindByKey(key)).value.(value := value, updatedAt := now))
      ensures |rows| == |old(rows)|
      ensures forall k :: 0 <= k < |rows| ==> rows[k] == (if old(rows)[k].key == key then old(rows)[k].(value := value, updatedAt := now) else old(rows)[k])
      ensures r == FindByKey(key)
    {
      var i := FindIndex(rows, (c: SystemConfig) => c.key == key);
      if i.Some? {
        FindUnique(rows, key, i.value);
        rows := rows[i.value := rows[i.value].(value := value, updatedAt := now)];
        FindUnique(rows, key, i.value);
      }
      r := FindByKey(key);
    }

    /** delete: removes the row under `key`. */
    method Delete(key: string)
      requires Valid()
      modifies this
      ensures Valid()
      ensures rows == Filter(old(rows), (c: SystemConfig) => c.key != key)
    {
      rows := Filter(rows, (c: SystemConfig) => c.key != key);
      DeleteKeepsDistinct(old(rows), key);
    }

    /** setBoolean: update with 'true' or 'false'; read back with getBoolean it gives the flag written. */
    method SetBoolean(key: string, b: bool, now: int) returns (r: Option<SystemConfig>)
      requires Valid()
      modifies this
      ensures Valid()
      ensures r == FindByKey(key)
      ensures old(FindByKey(key)).Some? ==> forall d :: GetBoolean(key, d) == b
      ensures old(FindByKey(key)).None? ==> rows == old(rows)
    {
      r := Update(key, BoolText(b), now);
    }
  }

  /** With distinct keys, the row holding `key` is the one findByKey returns. */
  lemma FindUnique(rows: seq<SystemConfig>, key: string, i: nat)
    requires KeysDistinct(rows) && i < |rows| && rows[i].key == key
    ensures FindIndex(rows, (c: SystemConfig) => c.key == key) == Some(i)
  {
    FindIndexUnique(rows, (c: SystemConfig) => c.key == key, Some(i));
  }

  /** Reading back what setBoolean writes gives the flag, whatever the default. */
  lemma BoolRoundTrip(b: bool)
    ensures BoolOf(BoolText(b)) == b
  {
  }

  /** findAll lists the rows in increasing key order. */
  lemma FindAllOrdered(t: SystemConfigTable)
    ensures forall i, j :: 0 <= i < j < |t.FindAll()| ==>
      StrLess(t.FindAll()[i].key, t.FindAll()[j].key) || t.FindAll()[i].key == t.FindAll()[j].key
  {
    var dom := set k | 0 <= k < |t.rows| :: t.rows[k];
    LexImageStrictWeak(dom, (c: SystemConfig) => CodePoints(c.key), KeyBefore);
    SortBySorted(t.rows, KeyBefore, dom);
    var r := t.FindAll();
    forall i, j | 0 <= i < j < |r| ensures StrLess(r[i].key, r[j].key) || r[i].key == r[j].key {
      StrLessTotal(r[i].key, r[j].key);
    }
  }

  lemma {:induction false} DeleteKeepsDistinct(rows: seq<SystemConfig>, key: string)
    requires KeysDistinct(rows)
    ensures KeysDistinct(Filter(rows, (c: SystemConfig) => c.key != key))
    decreases |rows|
  {
    if |rows| > 0 {
      DeleteKeepsDistinct(rows[1..], key);
      var rest := Filter(rows[1..], (c: SystemConfig) => c.key != key);
      forall k | 0 <= k < |rest| ensures rest[k].key != rows[0].key {
        assert rest[k] in rows[1..];
      }
    }
  }
}
