/**
 * JsonStore (server/back-end/db/json-store.js): a table is a JSON file
 * holding an array of flat records, read through a per-table cache. The
 * files are a map from table name to rows; file system failures and
 * JSON.parse errors are not modelled, and the ISO timestamp is a
 * parameter.
 *
 * On a cache miss readTable hands out the very array it caches, and
 * findAll sorts that array in place when it has no `where` clause; so the
 * cache holds a permutation of the file's rows rather than always the
 * same sequence. The model keeps that behaviour: the invariant is that a
 * cached table has the same rows as its file, in some order.
 */
module JsonStore {
  import opened Common

  /** A JSON value of a flat record (numbers are integers here). */
  datatype Value = Null | Bool(b: bool) | Num(n: int) | Str(s: string)

  type Row = map<string, Value>

  const TABLES: seq<string> := ["users", "proxy_services", "host_configs", "system_configs"]

  predicate KnownTable(t: string)
  {
    t in TABLES
  }

  function UnknownTable(t: string): string
  {
    "Unknown table: " + t
  }

  // ---------------------------------------------------------------------
  // Field mapping: password_hash in the file, passwordHash in memory
  // ---------------------------------------------------------------------

  function ToCamel(r: Row): (c: Row)
    ensures "password_hash" !in c
    ensures "password_hash" in r ==> "passwordHash" in c && c["passwordHash"] == r["password_hash"]
    ensures forall k :: k in r && k != "password_hash" && k != "passwordHash" ==> k in c && c[k] == r[k]
    ensures forall k :: k in c && k != "passwordHash" ==> k in r && c[k] == r[k]
  {
    if "password_hash" in r then (r - {"password_hash"})["passwordHash" := r["password_hash"]] else r
  }

  function ToSnake(c: Row): (r: Row)
    ensures "passwordHash" !in r
    ensures "passwordHash" in c ==> "password_hash" in r && r["password_hash"] == c["passwordHash"]
    ensures forall k :: k in c && k != "password_hash" && k != "passwordHash" ==> k in r && r[k] == c[k]
    ensures forall k :: k in r && k != "password_hash" ==> k in c && r[k] == c[k]
  {
    if "passwordHash" in c then (c - {"passwordHash"})["password_hash" := c["passwordHash"]] else c
  }

  /** A flat record without a passwordHash key survives the trip to memory and back. */
  lemma SnakeCamelRoundTrip(r: Row)
    requires "passwordHash" !in r
    ensures ToSnake(ToCamel(r)) == r
  {
    var back := ToSnake(ToCamel(r));
    assert back.Keys == r.Keys;
  }

  /** And a record without a password_hash key survives the trip to the file and back. */
  lemma CamelSnakeRoundTrip(c: Row)
    requires "password_hash" !in c
    ensures ToCamel(ToSnake(c)) == c
  {
    var back := ToCamel(ToSnake(c));
    assert back.Keys == c.Keys;
  }

  function Camel(rows: seq<Row>): (r: seq<Row>)
    ensures |r| == |rows| && forall k :: 0 <= k < |rows| ==> r[k] == ToCamel(rows[k])
  {
    seq(|rows|, k requires 0 <= k < |rows| => ToCamel(rows[k]))
  }

  // ---------------------------------------------------------------------
  // Identifiers
  // ---------------------------------------------------------------------

  predicate HasId(r: Row)
  {
    "id" in r && r["id"].Num?
  }

  predicate AllIds(rows: seq<Row>)
  {
    forall k :: 0 <= k < |rows| ==> HasId(rows[k])
  }

  lemma Overwrite<K, V>(m: map<K, V>, k: K, v: V, w: V)
    ensures m[k := v][k := w] == m[k := w]
  {
  }

  lemma AllIdsAppend(rows: seq<Row>, row: Row)
    requires AllIds(rows) && HasId(row)
    ensures AllIds(rows + [row])
  {
    assert forall k :: 0 <= k < |rows| ==> (rows + [row])[k] == rows[k];
  }

  lemma AllIdsRemove(rows: seq<Row>, i: nat)
    requires AllIds(rows) && i < |rows|
    ensures AllIds(rows[..i] + rows[i + 1..])
  {
    var rest := rows[..i] + rows[i + 1..];
    forall k | 0 <= k < |rest| ensures HasId(rest[k]) {
      assert rest[k] == if k < i then rows[k] else rows[k + 1];
    }
  }

  lemma AllIdsReplace(rows: seq<Row>, i: nat, row: Row)
    requires AllIds(rows) && i < |rows| && HasId(row)
    ensures AllIds(rows[i := row])
  {
  }

  /** Dropping a table from the cache undoes having cached it. */
  lemma DropCached(cache: map<string, seq<Row>>, t: string, rows: seq<Row>)
    ensures cache[t := rows] - {t} == cache - {t}
  {
  }

  lemma AllIdsPermuted(a: seq<Row>, b: seq<Row>)
    requires multiset(a) == multiset(b) && AllIds(b)
    ensures AllIds(a)
  {
    forall k | 0 <= k < |a| ensures HasId(a[k]) {
      assert a[k] in multiset(b);
      var j :| 0 <= j < |b| && b[j] == a[k];
    }
  }

  /** generateId: 1 for an empty table, otherwise the largest id plus one. */
  function GenerateId(rows: seq<Row>): (id: int)
    requires AllIds(rows)
    ensures |rows| == 0 ==> id == 1
    ensures forall k :: 0 <= k < |rows| ==> rows[k]["id"].n < id
    ensures |rows| > 0 ==> exists k :: 0 <= k < |rows| && rows[k]["id"].n == id - 1
    decreases |rows|
  {
    if |rows| == 0 then 1
    else if |rows| == 1 then rows[0]["id"].n + 1
    else
      var m := GenerateId(rows[1..]);
      assert forall k :: 1 <= k < |rows| ==> rows[k] == rows[1..][k - 1];
      if rows[0]["id"].n + 1 > m then rows[0]["id"].n + 1 else m
  }

  predicate IdIs(r: Row, id: int)
  {
    "id" in r && r["id"] == Num(id)
  }

  /** The row test of findById, update and delete. */
  function WithId(id: int): Row -> bool
  {
    (x: Row) => IdIs(x, id)
  }

  // ---------------------------------------------------------------------
  // findAll's pipeline: where, orderBy/order, limit/offset
  // ---------------------------------------------------------------------

  datatype FindOptions = FindOptions(
    where: Option<map<string, Value>>,
    orderBy: Option<string>,
    order: Option<string>,
    limit: Option<int>,
    offset: Option<int>)

  /** Every condition of `where` holds with strict equality. */
  predicate Matches(r: Row, where: map<string, Value>)
  {
    forall k :: k in where ==> k in r && r[k] == where[k]
  }

  function Selected(rows: seq<Row>, where: Option<map<string, Value>>): (r: seq<Row>)
    ensures where.None? ==> r == rows
    ensures where.Some? ==> r == Filter(rows, (x: Row) => Matches(x, where.value))
  {
    if where.None? then rows else Filter(rows, (x: Row) => Matches(x, where.value))
  }

  function FieldOf(r: Row, f: string): Option<Value>
  {
    if f in r then Some(r[f]) else None
  }

  /** The number `<` turns a non-string value into: null is 0, false and true are 0 and 1. */
  function NumOf(v: Value): int
  {
    match v
      case Null => 0
      case Bool(b) => if b then 1 else 0
      case Num(n) => n
      case Str(_) => 0
  }

  /**
   * The < of the comparator: two strings compare by code units; numbers, booleans and null compare as
   * numbers; a missing field (undefined, so NaN) and a string met by a non-string compare neither way.
   */
  predicate Less(a: Option<Value>, b: Option<Value>)
  {
    match (a, b)
      case (Some(Str(x)), Some(Str(y))) => JsLess(x, y)
      case (Some(x), Some(y)) => !x.Str? && !y.Str? && NumOf(x) < NumOf(y)
      case _ => false
  }

  /** null sorts below 1 and false below true, as JavaScript coerces them; a missing field is below nothing. */
  lemma CoercedLess(v: Value)
    ensures Less(Some(Null), Some(Num(1))) && Less(Some(Bool(false)), Some(Bool(true)))
    ensures Less(Some(Bool(true)), Some(Num(2))) && !Less(Some(Num(2)), Some(Bool(true)))
    ensures !Less(None, Some(v)) && !Less(Some(v), None)
  {
  }

  /** The comparator orders `a` strictly before `b`: ascending only for order 'ASC', descending otherwise. */
  predicate Before(a: Row, b: Row, field: string, asc: bool)
  {
    if asc then Less(FieldOf(a, field), FieldOf(b, field)) else Less(FieldOf(b, field), FieldOf(a, field))
  }

  predicate Sorts(opts: FindOptions)
  {
    opts.orderBy.Some? && |opts.orderBy.value| > 0
  }

  function Ordered(rows: seq<Row>, opts: FindOptions): (r: seq<Row>)
    ensures multiset(r) == multiset(rows) && |r| == |rows|
    ensures !Sorts(opts) ==> r == rows
  {
    if Sorts(opts) then
      SortBy(rows, (a: Row, b: Row) => Before(a, b, opts.orderBy.value, opts.order == Some("ASC")))
    else rows
  }

  /** `options.offset`, or 0 when it is missing (0 itself is falsy and gives 0 too). */
  function OffsetOf(opts: FindOptions): int
  {
    if opts.offset.Some? then opts.offset.value else 0
  }

  /**
   * slice(offset, offset + limit) when limit is truthy, with offset defaulting to 0: the run of rows
   * between the two bounds, each counted back from the end when negative.
   */
  function Paged(rows: seq<Row>, opts: FindOptions): (r: seq<Row>)
    ensures !Truthy(opts.limit) ==> r == rows
    ensures Truthy(opts.limit) && opts.limit.value > 0 ==> |r| <= opts.limit.value
    ensures Truthy(opts.limit) ==>
      var from := SliceIndex(|rows|, OffsetOf(opts));
      var to := SliceIndex(|rows|, OffsetOf(opts) + opts.limit.value);
      |r| == (if from < to then to - from else 0) && forall k :: 0 <= k < |r| ==> r[k] == rows[from + k]
    ensures forall k :: 0 <= k < |r| ==> r[k] in rows
  {
    if Truthy(opts.limit) then
      Slice(rows, OffsetOf(opts), OffsetOf(opts) + opts.limit.value)
    else rows
  }

  /** A negative offset counts back from the end of the rows: slice(-2, 1) of three rows is empty, slice(-2, 3) the last two. */
  lemma PagedFromEnd(a: Row, b: Row, c: Row)
    ensures Paged([a, b, c], FindOptions(None, None, None, Some(3), Some(-2))) == []
    ensures Paged([a, b, c], FindOptions(None, None, None, Some(5), Some(-2))) == [b, c]
  {
    var r := Paged([a, b, c], FindOptions(None, None, None, Some(5), Some(-2)));
    assert |r| == 2 && r[0] == b && r[1] == c;
  }

  /** What findAll returns for the rows readTable handed it. */
  function Found(rows: seq<Row>, opts: FindOptions): seq<Row>
  {
    Camel(Paged(Ordered(Selected(rows, opts.where), opts), opts))
  }

  /** Every row found satisfies the where clause. */
  lemma FoundMatch(rows: seq<Row>, opts: FindOptions)
    requires opts.where.Some?
    ensures forall k :: 0 <= k < |Found(rows, opts)| ==>
      exists j :: 0 <= j < |rows| && Matches(rows[j], opts.where.value) && Found(rows, opts)[k] == ToCamel(rows[j])
  {
    var sel := Selected(rows, opts.where);
    var ord := Ordered(sel, opts);
    var pg := Paged(ord, opts);
    forall k | 0 <= k < |Found(rows, opts)|
      ensures exists j :: 0 <= j < |rows| && Matches(rows[j], opts.where.value) && Found(rows, opts)[k] == ToCamel(rows[j])
    {
      assert pg[k] in ord;
      assert pg[k] in multiset(sel);
      assert pg[k] in sel;
      var j :| 0 <= j < |rows| && rows[j] == pg[k];
    }
  }

  /** Without limit, findAll returns every matching row: sorting only reorders. */
  lemma FoundAll(rows: seq<Row>, opts: FindOptions)
    requires !Truthy(opts.limit)
    ensures multiset(Found(rows, opts)) == multiset(Camel(Selected(rows, opts.where)))
  {
    var sel := Selected(rows, opts.where);
    var ord := Ordered(sel, opts);
    CamelMultiset(ord, sel);
  }

  lemma CamelAppend(s: seq<Row>, t: seq<Row>)
    ensures Camel(s + t) == Camel(s) + Camel(t)
  {
  }

  lemma {:induction false} CamelMultiset(a: seq<Row>, b: seq<Row>)
    requires multiset(a) == multiset(b)
    ensures multiset(Camel(a)) == multiset(Camel(b))
    decreases |a|
  {
    if |a| > 0 {
      var x := a[0];
      assert x in multiset(b);
      var i :| 0 <= i < |b| && b[i] == x;
      RemoveOne(a, b, i);
      CamelMultiset(a[1..], b[..i] + b[i + 1..]);
      CamelStep(a, b, i);
    } else {
      assert |b| == |multiset(b)| == 0;
      assert Camel(b) == Camel(a) == [];
    }
  }

  /** The camel-cased rows are those of the rows without the i-th, plus the i-th camel-cased. */
  /** Removing one matching row from both sides keeps the converted multisets equal. */
  lemma CamelStep(a: seq<Row>, b: seq<Row>, i: nat)
    requires 0 < |a| && i < |b| && b[i] == a[0]
    requires multiset(Camel(a[1..])) == multiset(Camel(b[..i] + b[i + 1..]))
    ensures multiset(Camel(a)) == multiset(Camel(b))
  {
    var y := ToCamel(a[0]);
    var restA, restB := Camel(a[1..]), Camel(b[..i] + b[i + 1..]);
    assert a == [a[0]] + a[1..];
    CamelAppend([a[0]], a[1..]);
    assert Camel([a[0]]) == [y];
    assert multiset(Camel(a)) == multiset(restA) + multiset{y};
    CamelWithout(b, i);
    assert multiset(Camel(b)) == multiset(restB) + multiset{y};
  }

  lemma CamelWithout(b: seq<Row>, i: nat)
    requires i < |b|
    ensures multiset(Camel(b)) == multiset(Camel(b[..i] + b[i + 1..])) + multiset{ToCamel(b[i])}
  {
    var left, right := b[..i], b[i + 1..];
    assert b == left + [b[i]] + right;
    CamelAppend(left + [b[i]], right);
    CamelAppend(left, [b[i]]);
    CamelAppend(left, right);
    assert Camel([b[i]]) == [ToCamel(b[i])];
  }

  lemma RemoveOne(a: seq<Row>, b: seq<Row>, i: nat)
    requires multiset(a) == multiset(b) && 0 < |a| && i < |b| && b[i] == a[0]
    ensures multiset(a[1..]) == multiset(b[..i] + b[i + 1..])
  {
    var x := a[0];
    assert a == [x] + a[1..];
    assert b == b[..i] + [x] + b[i + 1..];
    assert multiset(a) == multiset{x} + multiset(a[1..]);
    assert multiset(b) == multiset{x} + multiset(b[..i] + b[i + 1..]);
    assert multiset(a[1..]) == multiset(a) - multiset{x};
  }

  /** All rows hold a string in the field, or all hold a number, a boolean or null there. */
  predicate Uniform(rows: seq<Row>, field: string)
  {
    (forall k :: 0 <= k < |rows| ==> field in rows[k] && !rows[k][field].Str?) ||
    (forall k :: 0 <= k < |rows| ==> field in rows[k] && rows[k][field].Str?)
  }

  /** On a field of one type, findAll's order is the requested one. */
  lemma OrderedSorted(rows: seq<Row>, opts: FindOptions)
    requires Sorts(opts) && Uniform(rows, opts.orderBy.value)
    ensures SortedBy(Ordered(rows, opts), (a: Row, b: Row) => Before(a, b, opts.orderBy.value, opts.order == Some("ASC")))
  {
    var field := opts.orderBy.value;
    var asc := opts.order == Some("ASC");
    var before := (a: Row, b: Row) => Before(a, b, field, asc);
    var dom := set k | 0 <= k < |rows| :: rows[k];
    if forall k :: 0 <= k < |rows| ==> field in rows[k] && !rows[k][field].Str? {
      NumbersWeak(dom, field, asc);
    } else {
      StringsWeak(dom, field, asc);
    }
    SortBySorted(rows, before, dom);
  }

  lemma NumbersWeak(dom: set<Row>, field: string, asc: bool)
    requires forall a: Row :: a in dom ==> field in a && !a[field].Str?
    ensures StrictWeakOn(dom, (a: Row, b: Row) => Before(a, b, field, asc))
  {
  }

  lemma StringsWeak(dom: set<Row>, field: string, asc: bool)
    requires forall a: Row :: a in dom ==> field in a && a[field].Str?
    ensures StrictWeakOn(dom, (a: Row, b: Row) => Before(a, b, field, asc))
  {
    var up := (a: Row, b: Row) => Before(a, b, field, true);
    LexImageStrictWeak(dom, (r: Row) => CodeUnits(if field in r && r[field].Str? then r[field].s else ""), up);
    if !asc {
      StrictWeakReversed(dom, up, (a: Row, b: Row) => Before(a, b, field, false));
    }
  }

  /** The row insert writes: the generated id, the data (whose own id, if any, wins), then both timestamps. */
  function InsertedRow(id: int, data: Row, now: string): (r: Row)
    ensures "created_at" in r && "updated_at" in r && "id" in r
    ensures r["created_at"] == r["updated_at"] == Str(now)
    ensures r["id"] == (if "id" in data then data["id"] else Num(id))
    ensures forall k :: k in data && k !in {"id", "created_at", "updated_at", "password_hash", "passwordHash"} ==> k in r && r[k] == data[k]
  {
    (map["id" := Num(id)] + ToSnake(data))["created_at" := Str(now)]["updated_at" := Str(now)]
  }

  /** The row update writes: the old row merged with the data, the numeric id forced, updated_at refreshed. */
  function UpdatedRow(old_: Row, id: int, data: Row, now: string): (r: Row)
    ensures IdIs(r, id) && "updated_at" in r && r["updated_at"] == Str(now)
    ensures forall k :: k in data && k !in {"id", "updated_at", "password_hash", "passwordHash"} ==> k in r && r[k] == data[k]
    ensures forall k :: k in old_ && k !in data && k !in {"id", "updated_at", "password_hash", "passwordHash"} ==>
      k in r && r[k] == old_[k]
  {
    (old_ + ToSnake(data))["id" := Num(id)]["updated_at" := Str(now)]
  }

  function NotFound(table: string, id: int): string
  {
    "Record not found: " + table + ".id=" + IntToString(id)
  }

  /** The rows of system_configs initializeSystemConfigs writes into an empty table. */
  function DefaultConfigs(now: string): seq<Row>
  {
    [ map["id" := Num(1), "key" := Str("register_enabled"), "value" := Str("true"),
          "description" := Str("允许注册用户"), "updated_at" := Str(now)],
      map["id" := Num(2), "key" := Str("pac_service_host"), "value" := Str("192.168.1.4"),
          "description" := Str("代理配置服务地址"), "updated_at" := Str(now)],
      map["id" := Num(3), "key" := Str("pac_service_port"), "value" := Str("8090"),
          "description" := Str("代理配置服务端口"), "updated_at" := Str(now)] ]
  }

  function ViewIn(cache: map<string, seq<Row>>, files: map<string, seq<Row>>, t: string): seq<Row>
  {
    if t in cache then cache[t] else if t in files then files[t] else []
  }

  /** Caching a file's rows on a miss changes what no table reads as. */
  lemma ReadKeepsView(cache: map<string, seq<Row>>, files: map<string, seq<Row>>, read: string, t: string)
    requires read !in cache && read in files
    ensures ViewIn(cache[read := files[read]], files, t) == ViewIn(cache, files, t)
  {
  }

  /** After reading the tables `read` in turn from `c0`: each existing table read or cached before, as it read then. */
  ghost predicate CachedSoFar(c: map<string, seq<Row>>, c0: map<string, seq<Row>>, files: map<string, seq<Row>>, read: seq<string>)
  {
    (forall t :: t in c <==> t in files && (t in c0 || t in read)) &&
    (forall t :: t in c ==> c[t] == ViewIn(c0, files, t))
  }

  /** Reading one more table caches it when its file exists and it was not cached yet. */
  lemma ReadStep(c: map<string, seq<Row>>, c0: map<string, seq<Row>>, files: map<string, seq<Row>>, read: seq<string>, table: string)
    requires CachedSoFar(c, c0, files, read)
    ensures CachedSoFar(if table !in c && table in files then c[table := files[table]] else c, c0, files, read + [table])
  {
  }

  lemma PrefixStep(s: seq<string>, i: nat)
    requires i < |s|
    ensures s[..i + 1] == s[..i] + [s[i]]
  {
  }

  /** The backup loop after reading `read`: those tables backed up as they read before the loop, and cached. */
  ghost predicate BackedUpSoFar(backups: map<string, seq<Row>>, c: map<string, seq<Row>>, c0: map<string, seq<Row>>,
                                files: map<string, seq<Row>>, read: seq<string>)
  {
    CachedSoFar(c, c0, files, read) &&
    backups.Keys == (set t | t in read) &&
    forall t :: t in backups ==> backups[t] == ViewIn(c0, files, t)
  }

  /** Once the backup loop has read every table. */
  lemma BackedUpAll(backups: map<string, seq<Row>>, c: map<string, seq<Row>>, c0: map<string, seq<Row>>,
                    files: map<string, seq<Row>>)
    requires BackedUpSoFar(backups, c, c0, files, TABLES)
    requires forall t :: t in files ==> KnownTable(t) && AllIds(files[t])
    requires forall t :: t in c0 ==> t in files && AllIds(c0[t])
    ensures c == map t | t in files :: ViewIn(c0, files, t)
    ensures forall t :: ViewIn(c, files, t) == ViewIn(c0, files, t)
    ensures backups.Keys == set t | t in TABLES
    ensures forall t :: t in backups ==> backups[t] == ViewIn(c0, files, t) && AllIds(backups[t])
  {
    forall t ensures ViewIn(c, files, t) == ViewIn(c0, files, t) {
      SoFarKeepsView(c, c0, files, TABLES, t);
    }
    ReadAll(c, c0, files);
    forall t | t in backups ensures AllIds(backups[t]) {
      ViewAllIds(c0, files, t);
    }
  }

  /** Reading tables never changes what any table reads as. */
  lemma SoFarKeepsView(c: map<string, seq<Row>>, c0: map<string, seq<Row>>, files: map<string, seq<Row>>, read: seq<string>, t: string)
    requires CachedSoFar(c, c0, files, read)
    requires forall u :: u in c0 ==> u in files
    ensures ViewIn(c, files, t) == ViewIn(c0, files, t)
  {
  }

  /** Whatever a table reads as carries an id on every row, when the cache and the files do. */
  lemma ViewAllIds(c: map<string, seq<Row>>, files: map<string, seq<Row>>, t: string)
    requires forall u :: u in c ==> AllIds(c[u])
    requires forall u :: u in files ==> AllIds(files[u])
    ensures AllIds(ViewIn(c, files, t))
  {
    assert AllIds([]);
  }

  /** Once every table has been read, the cache holds exactly the existing tables, each as it read. */
  lemma ReadAll(c: map<string, seq<Row>>, c0: map<string, seq<Row>>, files: map<string, seq<Row>>)
    requires CachedSoFar(c, c0, files, TABLES)
    requires forall t :: t in files ==> KnownTable(t)
    ensures c == map t | t in files :: ViewIn(c0, files, t)
  {
  }

  /** The three defaults inserted one by one into an empty table, each taking the next generated id. */
  method NumberDefaults(now: string) returns (rows: seq<Row>)
    ensures rows == DefaultConfigs(now)
  {
    var defaults := DefaultConfigs(now);
    rows := [];
    for i := 0 to 3
      invariant |rows| == i && AllIds(rows)
      invariant forall k :: 0 <= k < i ==> rows[k] == defaults[k]
    {
      var id := GenerateId(rows);
      rows := rows + [defaults[i]["id" := Num(id)]];
      assert defaults[i]["id" := Num(i + 1)] == defaults[i];
    }
  }

  class Store {
    /** The table files: name to rows. */
    var files: map<string, seq<Row>>
    /** The tables read since their last write. */
    var cache: map<string, seq<Row>>

    ghost predicate Valid()
      reads this
    {
      (forall t :: t in files ==> KnownTable(t) && AllIds(files[t])) &&
      (forall t :: t in cache ==> t in files && multiset(cache[t]) == multiset(files[t]) && AllIds(cache[t]))
    }

    constructor(files: map<string, seq<Row>>)
      requires forall t :: t in files ==> KnownTable(t) && AllIds(files[t])
      ensures Valid() && this.files == files && cache == map[]
    {
      this.files := files;
      cache := map[];
    }

    /** What readTable returns for a table: the cache, else the file, else no rows. */
    function View(t: string): seq<Row>
      reads this
    {
      ViewIn(cache, files, t)
    }

    /** The cache after reading `t`: a file read on a miss is cached; a missing file is not. */
    function CachedAfterRead(t: string): map<string, seq<Row>>
      reads this
    {
      if t !in cache && t in files then cache[t := files[t]] else cache
    }

    /** The cache once every table has been read: each existing table file, as readTable sees it. */
    function CachedAll(): map<string, seq<Row>>
      reads this
    {
      map t | t in files :: ViewIn(cache, files, t)
    }

    method ReadTable(table: string) returns (r: Result<seq<Row>>)
      requires Valid()
      modifies this
      ensures Valid() && files == old(files)
      ensures !KnownTable(table) ==> r == Err(UnknownTable(table)) && cache == old(cache)
      ensures KnownTable(table) ==> r == Ok(old(View(table))) && cache == old(CachedAfterRead(table))
      ensures r.Ok? ==> AllIds(r.value)
    {
      if !KnownTable(table) {
        return Err(UnknownTable(table));
      }
      if table in cache {
        return Ok(cache[table]);
      }
      if table !in files {
        return Ok([]);
      }
      var rows := files[table];
      cache := cache[table := rows];
      r := Ok(rows);
    }

    /** writeTable: the file takes the rows and the table leaves the cache. */
    method WriteTable(table: string, rows: seq<Row>) returns (r: Result<()>)
      requires Valid() && AllIds(rows)
      modifies this
      ensures Valid()
      ensures !KnownTable(table) ==> r == Err(UnknownTable(table)) && files == old(files) && cache == old(cache)
      ensures KnownTable(table) ==> r == Ok(()) && files == old(files)[table := rows] && cache == old(cache) - {table}
    {
      if !KnownTable(table) {
        return Err(UnknownTable(table));
      }
      files := files[table := rows];
      cache := cache - {table};
      r := Ok(());
    }

    /**
     * The cache after findAll: as after a read, except that a sort without where on a table just read
     * from its file leaves the cached rows sorted.
     */
    function CachedAfterFind(t: string, opts: FindOptions): map<string, seq<Row>>
      reads this
    {
      if t !in cache && t in files && opts.where.None? && Sorts(opts) then cache[t := Ordered(files[t], opts)]
      else CachedAfterRead(t)
    }

    /** findAll: where, then orderBy, then limit/offset, each record mapped to memory field names. */
    method FindAll(table: string, opts: FindOptions) returns (r: Result<seq<Row>>)
      requires Valid()
      modifies this
      ensures Valid() && files == old(files)
      ensures !KnownTable(table) ==> r == Err(UnknownTable(table)) && cache == old(cache)
      ensures KnownTable(table) ==> r == Ok(Found(old(View(table)), opts)) && cache == old(CachedAfterFind(table, opts))
    {
      var aliased := table !in cache && table in files;
      ghost var after := CachedAfterFind(table, opts);
      ghost var cache0 := cache;
      var read := ReadTable(table);
      if read.Err? {
        return Err(read.message);
      }
      if aliased && opts.where.None? && Sorts(opts) {
        // the array readTable just cached is the one sort reorders
        assert read.value == files[table];
        var sorted := Ordered(read.value, opts);
        ghost var cache1 := cache;
        Recache(table, sorted);
        assert cache1 == cache0[table := files[table]];
        Overwrite(cache0, table, files[table], sorted);
        assert cache == after;
      } else {
        assert cache == after;
      }
      r := Ok(Found(read.value, opts));
    }

    /** The cached rows of a table replaced by a reordering of them. */
    method Recache(table: string, rows: seq<Row>)
      requires Valid() && table in files && multiset(rows) == multiset(files[table])
      modifies this
      ensures Valid() && files == old(files) && cache == old(cache)[table := rows]
    {
      AllIdsPermuted(rows, files[table]);
      cache := cache[table := rows];
    }

    /** findOne: the first record findAll returns, or nothing. */
    method FindOne(table: string, opts: FindOptions) returns (r: Result<Option<Row>>)
      requires Valid()
      modifies this
      ensures Valid() && files == old(files)
      ensures !KnownTable(table) ==> r == Err(UnknownTable(table)) && cache == old(cache)
      ensures KnownTable(table) ==>
        r == Ok(if |Found(old(View(table)), opts)| > 0 then Some(Found(old(View(table)), opts)[0]) else None) &&
        cache == old(CachedAfterFind(table, opts))
    {
      var rows := FindAll(table, opts);
      if rows.Err? {
        return Err(rows.message);
      }
      r := Ok(if |rows.value| > 0 then Some(rows.value[0]) else None);
    }

    /** findById: the first record with that numeric id, mapped to memory field names. */
    method FindById(table: string, id: int) returns (r: Result<Option<Row>>)
      requires Valid()
      modifies this
      ensures Valid() && files == old(files) && cache == (if KnownTable(table) then old(CachedAfterRead(table)) else old(cache))
      ensures !KnownTable(table) ==> r == Err(UnknownTable(table))
      ensures KnownTable(table) ==>
                r.Ok? && (r.value.None? <==> forall k :: 0 <= k < |old(View(table))| ==> !IdIs(old(View(table))[k], id))
      ensures r.Ok? && r.value.Some? ==>
        exists k :: 0 <= k < |old(View(table))| && IdIs(old(View(table))[k], id) && r.value.value == ToCamel(old(View(table))[k])
      ensures KnownTable(table) && FindIndex(old(View(table)), WithId(id)).Some? ==>
        r == Ok(Some(ToCamel(old(View(table))[FindIndex(old(View(table)), WithId(id)).value])))
    {
      var read := ReadTable(table);
      if read.Err? {
        return Err(read.message);
      }
      var i := FindIndex(read.value, WithId(id));
      r := Ok(if i.Some? then Some(ToCamel(read.value[i.value])) else None);
    }

    /**
     * insert: appends one row carrying a generated id (strictly above every id in the table, unless the
     * data brings its own) and equal created_at and updated_at, then writes the table.
     */
    method Insert(table: string, data: Row, now: string) returns (r: Result<Row>)
      requires Valid()
      requires "id" in data ==> data["id"].Num?
      modifies this
      ensures Valid()
      ensures !KnownTable(table) ==> r == Err(UnknownTable(table)) && files == old(files) && cache == old(cache)
      ensures KnownTable(table) ==>
        var row := InsertedRow(GenerateId(old(View(table))), data, now);
        files == old(files)[table := old(View(table)) + [row]] && cache == old(cache) - {table} &&
        r == Ok(ToCamel(row))
    {
      var read := ReadTable(table);
      if read.Err? {
        return Err(read.message);
      }
      var rows := read.value;
      var id := GenerateId(rows);
      var newRow := InsertedRow(id, data, now);
      AllIdsAppend(rows, newRow);
      if table !in old(cache) && table in old(files) {
        DropCached(old(cache), table, old(files)[table]);
      }
      rows := rows + [newRow];
      var _ := WriteTable(table, rows);
      r := Ok(ToCamel(newRow));
    }

    /**
     * update: 'Record not found' when no row has the id; otherwise the first such row is merged with
     * the data, keeps the numeric id and gets a fresh updated_at, and every other row stays.
     */
    method Update(table: string, id: int, data: Row, now: string) returns (r: Result<Row>)
      requires Valid()
      modifies this
      ensures Valid()
      ensures !KnownTable(table) ==> r == Err(UnknownTable(table)) && files == old(files) && cache == old(cache)
      ensures KnownTable(table) && FindIndex(old(View(table)), WithId(id)).None? ==>
        r == Err(NotFound(table, id)) && files == old(files) && cache == old(CachedAfterRead(table))
      ensures KnownTable(table) && FindIndex(old(View(table)), WithId(id)).Some? ==>
        var i := FindIndex(old(View(table)), WithId(id)).value;
        var row := UpdatedRow(old(View(table))[i], id, data, now);
        files == old(files)[table := old(View(table))[i := row]] && r == Ok(ToCamel(row)) &&
        cache == old(cache) - {table}
    {
      var read := ReadTable(table);
      if read.Err? {
        return Err(read.message);
      }
      var rows := read.value;
      var index := FindIndex(rows, WithId(id));
      if index.None? {
        return Err(NotFound(table, id));
      }
      var updatedRow := UpdatedRow(rows[index.value], id, data, now);
      AllIdsReplace(rows, index.value, updatedRow);
      if table !in old(cache) && table in old(files) {
        DropCached(old(cache), table, old(files)[table]);
      }
      rows := rows[index.value := updatedRow];
      var _ := WriteTable(table, rows);
      r := Ok(ToCamel(updatedRow));
    }

    /** delete: 'Record not found' when no row has the id; otherwise exactly the first such row is removed. */
    method Delete(table: string, id: int) returns (r: Result<()>)
      requires Valid()
      modifies this
      ensures Valid()
      ensures !KnownTable(table) ==> r == Err(UnknownTable(table)) && files == old(files) && cache == old(cache)
      ensures KnownTable(table) && FindIndex(old(View(table)), WithId(id)).None? ==>
        r == Err(NotFound(table, id)) && files == old(files) && cache == old(CachedAfterRead(table))
      ensures KnownTable(table) && FindIndex(old(View(table)), WithId(id)).Some? ==>
        var i := FindIndex(old(View(table)), WithId(id)).value;
        r == Ok(()) && files == old(files)[table := old(View(table))[..i] + old(View(table))[i + 1..]] &&
        cache == old(cache) - {table}
    {
      var read := ReadTable(table);
      if read.Err? {
        return Err(read.message);
      }
      var rows := read.value;
      var index := FindIndex(rows, WithId(id));
      if index.None? {
        return Err(NotFound(table, id));
      }
      AllIdsRemove(rows, index.value);
      if table !in old(cache) && table in old(files) {
        DropCached(old(cache), table, old(files)[table]);
      }
      rows := rows[..index.value] + rows[index.value + 1..];
      var _ := WriteTable(table, rows);
      r := Ok(());
    }

    /** count: the length of what findAll returns with the same options. */
    method Count(table: string, opts: FindOptions) returns (r: Result<nat>)
      requires Valid()
      modifies this
      ensures Valid() && files == old(files)
      ensures !KnownTable(table) ==> r == Err(UnknownTable(table)) && cache == old(cache)
      ensures KnownTable(table) ==> r == Ok(|Found(old(View(table)), opts)|) && cache == old(CachedAfterFind(table, opts))
    {
      var rows := FindAll(table, opts);
      if rows.Err? {
        return Err(rows.message);
      }
      r := Ok(|rows.value|);
    }

    /** clearCache: one table, or all of them. */
    method ClearCache(table: Option<string>)
      requires Valid()
      modifies this
      ensures Valid() && files == old(files)
      ensures cache == (if table.Some? && |table.value| > 0 then old(cache) - {table.value} else map[])
    {
      if table.Some? && |table.value| > 0 {
        cache := cache - {table.value};
      } else {
        cache := map[];
      }
    }

    /**
     * transaction: every table is backed up by reading it, then the callback runs (its writes given as
     * `writes`). When it throws, every table is rewritten from its backup and the error is passed on.
     */
    method Transaction(writes: map<string, seq<Row>>, throws: bool) returns (r: Result<()>)
      requires Valid()
      requires forall t :: t in writes ==> KnownTable(t) && AllIds(writes[t])
      modifies this
      ensures Valid()
      ensures !throws ==> r == Ok(()) && files == old(files) + writes && cache == old(CachedAll()) - writes.Keys
      ensures throws ==> r.Err? && cache == map[]
      ensures throws ==> forall t :: KnownTable(t) ==> t in files && files[t] == old(View(t))
      ensures throws ==> forall t :: t in files ==> KnownTable(t)
    {
      var backups := BackUp();
      files := files + writes;
      cache := cache - writes.Keys;
      if !throws {
        return Ok(());
      }
      Restore(backups);
      r := Err("callback failed");
    }

    /** The backup loop: each table read in turn. */
    method BackUp() returns (backups: map<string, seq<Row>>)
      requires Valid()
      modifies this
      ensures Valid() && files == old(files)
      ensures forall t :: View(t) == old(View(t))
      ensures cache == old(CachedAll())
      ensures backups.Keys == set t | t in TABLES
      ensures forall t :: t in backups ==> backups[t] == old(View(t)) && AllIds(backups[t])
    {
      ghost var c0, f0, all := cache, files, CachedAll();
      backups := map[];
      for i := 0 to |TABLES|
        invariant Valid() && files == f0
        invariant BackedUpSoFar(backups, cache, c0, f0, TABLES[..i])
      {
        backups := BackUpTable(TABLES[i], backups, c0, TABLES[..i]);
        PrefixStep(TABLES, i);
      }
      assert TABLES[..|TABLES|] == TABLES;
      BackedUpAll(backups, cache, c0, f0);
      assert cache == all;
    }

    /** One turn of the backup loop: the table is read, and cached if its file exists and it was not yet. */
    method BackUpTable(table: string, backups: map<string, seq<Row>>, ghost c0: map<string, seq<Row>>, ghost read: seq<string>)
      returns (backups': map<string, seq<Row>>)
      requires Valid() && KnownTable(table) && BackedUpSoFar(backups, cache, c0, files, read)
      requires forall t :: t in c0 ==> t in files
      modifies this
      ensures Valid() && files == old(files)
      ensures BackedUpSoFar(backups', cache, c0, files, read + [table])
    {
      SoFarKeepsView(cache, c0, files, read, table);
      ReadStep(cache, c0, files, read, table);
      var r := ReadTable(table);
      backups' := backups[table := r.value];
    }

    /** The rollback loop: every table written back from its backup. */
    method Restore(backups: map<string, seq<Row>>)
      requires Valid()
      requires backups.Keys == set t | t in TABLES
      requires forall t :: t in backups ==> AllIds(backups[t])
      modifies this
      ensures Valid()
      ensures forall t :: KnownTable(t) ==> t in files && files[t] == backups[t]
      ensures forall t :: t in files ==> KnownTable(t)
      ensures cache == map[]
    {
      for i := 0 to |TABLES|
        invariant Valid()
        invariant forall t :: t in TABLES[..i] ==> t in files && files[t] == backups[t] && t !in cache
      {
        var table := TABLES[i];
        var _ := WriteTable(table, backups[table]);
        assert TABLES[..i + 1] == TABLES[..i] + [table];
      }
      assert TABLES[..|TABLES|] == TABLES;
      assert cache.Keys == {};
    }

    /** initializeSystemConfigs: the three defaults, with ids 1, 2 and 3, only into an empty table. */
    method InitializeSystemConfigs(now: string)
      requires Valid()
      modifies this
      ensures Valid()
      ensures |old(View("system_configs"))| > 0 ==> files == old(files) && cache == old(CachedAfterRead("system_configs"))
      ensures |old(View("system_configs"))| == 0 ==>
        files == old(files)["system_configs" := DefaultConfigs(now)] && cache == old(cache) - {"system_configs"}
    {
      var read := ReadTable("system_configs");
      var rows := read.value;
      if |rows| > 0 {
        return;
      }
      rows := NumberDefaults(now);
      var _ := WriteTable("system_configs", rows);
    }

    /** initialize: every table file that does not exist is created empty; then the default configs. */
    method Initialize(now: string)
      requires Valid()
      modifies this
      ensures Valid()
      ensures forall t :: KnownTable(t) <==> t in files
      ensures forall t :: t in files && t != "system_configs" ==> files[t] == (if t in old(files) then old(files)[t] else [])
      ensures |old(View("system_configs"))| > 0 ==>
        "system_configs" in old(files) && files["system_configs"] == old(files)["system_configs"]
      ensures |old(View("system_configs"))| == 0 ==> "system_configs" in files && files["system_configs"] == DefaultConfigs(now)
      ensures |old(View("system_configs"))| > 0 ==> cache == old(CachedAfterRead("system_configs"))
      ensures |old(View("system_configs"))| == 0 ==> cache == old(cache) - {"system_configs"}
    {
      for i := 0 to |TABLES|
        invariant Valid() && cache == old(cache)
        invariant forall t :: t in TABLES[..i] ==> t in files
        invariant forall t :: t in files ==> t in old(files) || t in TABLES[..i]
        invariant forall t :: t in old(files) ==> t in files && files[t] == old(files)[t]
        invariant forall t :: t in files && t !in old(files) ==> files[t] == []
      {
        var table := TABLES[i];
        if table !in files {
          files := files[table := []];
        }
        assert TABLES[..i + 1] == TABLES[..i] + [table];
      }
      assert TABLES[..|TABLES|] == TABLES;
      assert View("system_configs") == old(View("system_configs"));
      InitializeSystemConfigs(now);
    }
  }
}
