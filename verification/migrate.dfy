/**
 * The migration runner (server/back-end/scripts/migrate.js): list the
 * `.sql` files of the migrations directory in name order, keep those whose
 * version is not yet recorded, and run each in a transaction that also
 * records its version; the first failure rolls that migration back and
 * stops the run. The directory listing and the SQL engine's verdict on a
 * script are parameters.
 */
module Migrate {
  import opened Common

  datatype Migration = Migration(filename: string, path: string, version: string)

  predicate IsSql(file: string)
  {
    EndsWith(file, ".sql")
  }

  /** `file.replace('.sql', '')`: the first occurrence of ".sql" is cut out. */
  function Version(file: string): string
  {
    ReplaceFirst(file, ".sql")
  }

  /** For a file name whose only ".sql" is its extension, the version is the name without it. */
  lemma VersionDropsExtension(base: string)
    requires forall k :: 0 <= k < |base| ==> !StartsWith((base + ".sql")[k..], ".sql")
    ensures Version(base + ".sql") == base
  {
    var file := base + ".sql";
    assert file[|base|..|base| + 4] == ".sql";
    IndexOfExact(file, ".sql", |base|);
  }

  /** A name with ".sql" inside loses that one, not its extension. */
  lemma VersionCutsFirst()
    ensures Version("a.sql.sql") == "a.sql"
  {
    var s := "a.sql.sql";
    assert s == "a" + ".sql" + ".sql";
    IndexOfAfter("a", ".sql", ".sql");
    assert s[..1] + s[5..] == "a.sql";
  }

  function MigrationOf(dir: string, file: string): Migration
  {
    Migration(file, dir + "/" + file, Version(file))
  }

  /** The default sort of the listing: code unit order of the names. */
  predicate NameBefore(a: string, b: string)
  {
    JsLess(a, b)
  }

  /** getMigrationFiles: no directory gives nothing; otherwise its `.sql` files in name order. */
  function GetMigrationFiles(dirExists: bool, dir: string, listing: seq<string>): (r: seq<Migration>)
    ensures !dirExists ==> r == []
    ensures forall k :: 0 <= k < |r| ==> IsSql(r[k].filename) && r[k].filename in listing && r[k] == MigrationOf(dir, r[k].filename)
  {
    if !dirExists then []
    else
      var files := SortBy(Filter(listing, IsSql), NameBefore);
      assert forall k :: 0 <= k < |files| ==> files[k] in multiset(Filter(listing, IsSql));
      seq(|files|, k requires 0 <= k < |files| => MigrationOf(dir, files[k]))
  }

  /** Every `.sql` file of an existing directory is listed, once per listing entry. */
  lemma MigrationFilesComplete(dir: string, listing: seq<string>)
    ensures var r := GetMigrationFiles(true, dir, listing);
      |r| == |Filter(listing, IsSql)| &&
      (forall f :: f in listing && IsSql(f) ==> exists k :: 0 <= k < |r| && r[k].filename == f)
  {
    var files := SortBy(Filter(listing, IsSql), NameBefore);
    var r := GetMigrationFiles(true, dir, listing);
    forall f | f in listing && IsSql(f) ensures exists k :: 0 <= k < |r| && r[k].filename == f {
      assert f in multiset(files);
      var k :| 0 <= k < |files| && files[k] == f;
      assert r[k].filename == f;
    }
  }

  /** The files come in name order. */
  lemma MigrationFilesSorted(dir: string, listing: seq<string>)
    ensures var r := GetMigrationFiles(true, dir, listing);
      forall i, j :: 0 <= i < j < |r| ==> !JsLess(r[j].filename, r[i].filename)
  {
    var sql := Filter(listing, IsSql);
    var dom := set k | 0 <= k < |sql| :: sql[k];
    JsLessStrictWeak(dom, NameBefore);
    SortBySorted(sql, NameBefore, dom);
  }

  /** The pending migrations: those whose version is not applied, in their listed order. */
  function Pending(files: seq<Migration>, applied: seq<string>): (r: seq<Migration>)
    ensures forall k :: 0 <= k < |r| ==> r[k] in files && r[k].version !in applied
    ensures forall m :: m in files && m.version !in applied ==> m in r
  {
    Filter(files, (m: Migration) => m.version !in applied)
  }

  /** The pending list keeps the name order of the files. */
  lemma PendingInOrder(dir: string, listing: seq<string>, applied: seq<string>)
    ensures var p := Pending(GetMigrationFiles(true, dir, listing), applied);
      forall i, j :: 0 <= i < j < |p| ==> !JsLess(p[j].filename, p[i].filename)
  {
    var files := GetMigrationFiles(true, dir, listing);
    MigrationFilesSorted(dir, listing);
    var byName := (a: Migration, b: Migration) => JsLess(a.filename, b.filename);
    assert SortedBy(files, byName);
    FilterSorted(files, (m: Migration) => m.version !in applied, byName);
  }

  function Versions(ms: seq<Migration>): (r: seq<string>)
    ensures |r| == |ms| && forall k :: 0 <= k < |ms| ==> r[k] == ms[k].version
  {
    seq(|ms|, k requires 0 <= k < |ms| => ms[k].version)
  }

  function Filenames(ms: seq<Migration>): (r: seq<string>)
    ensures |r| == |ms| && forall k :: 0 <= k < |ms| ==> r[k] == ms[k].filename
  {
    seq(|ms|, k requires 0 <= k < |ms| => ms[k].filename)
  }

  /** The message SQLite gives when a version is recorded twice (the column is the primary key). */
  const DuplicateVersion := "SQLITE_CONSTRAINT: UNIQUE constraint failed: schema_migrations.version"

  /** Why one migration fails, if it does: its script fails, or its version is already recorded. */
  function StepError(m: Migration, applied: seq<string>, execError: string -> Option<string>): (r: Option<string>)
    ensures r.None? <==> execError(m.filename).None? && m.version !in applied
  {
    if execError(m.filename).Some? then Some("Migration " + m.filename + " failed: " + execError(m.filename).value)
    else if m.version in applied then Some(DuplicateVersion)
    else None
  }

  /**
   * The run as a reference: how many pending migrations commit before the first failure, and the
   * failure.
   */
  function Run(pending: seq<Migration>, applied: seq<string>, execError: string -> Option<string>): (r: (nat, Option<string>))
    ensures r.0 <= |pending|
    ensures r.1.None? <==> r.0 == |pending|
    decreases |pending|
  {
    if |pending| == 0 then (0, None)
    else
      var m := pending[0];
      var error := StepError(m, applied, execError);
      if error.Some? then (0, error)
      else
        var rest := Run(pending[1..], applied + [m.version], execError);
        (rest.0 + 1, rest.1)
  }

  /** The run stops at the first migration that fails given what was recorded before it, and reports why. */
  lemma {:induction false} RunStopsAtFailure(pending: seq<Migration>, applied: seq<string>, execError: string -> Option<string>)
    ensures var r := Run(pending, applied, execError);
      (forall k :: 0 <= k < r.0 ==> StepError(pending[k], applied + Versions(pending[..k]), execError).None?) &&
      (r.0 < |pending| ==> r.1 == StepError(pending[r.0], applied + Versions(pending[..r.0]), execError))
    decreases |pending|
  {
    if |pending| > 0 && StepError(pending[0], applied, execError).None? {
      var m := pending[0];
      var tail := pending[1..];
      RunStopsAtFailure(tail, applied + [m.version], execError);
      var r := Run(pending, applied, execError);
      forall k | 0 < k < r.0
        ensures StepError(pending[k], applied + Versions(pending[..k]), execError).None?
      {
        AppliedShift(applied, pending, k);
      }
      if 0 < r.0 < |pending| {
        AppliedShift(applied, pending, r.0);
      }
    }
  }

  /** The versions recorded before the k-th migration, seen from the run that starts after the first. */
  lemma AppliedShift(applied: seq<string>, pending: seq<Migration>, k: nat)
    requires 0 < k <= |pending|
    ensures applied + Versions(pending[..k]) == applied + [pending[0].version] + Versions(pending[1..][..k - 1])
    ensures k < |pending| ==> pending[k] == pending[1..][k - 1]
  {
    assert pending[..k] == [pending[0]] + pending[1..][..k - 1];
  }

  /** The database as far as the runner sees it: the recorded versions and the scripts that took effect. */
  class Database {
    var applied: seq<string>
    var executed: seq<string>

    constructor(applied: seq<string>)
      ensures this.applied == applied && executed == []
    {
      this.applied := applied;
      executed := [];
    }

    /** One migration in its transaction: script and record commit together, or neither does. */
    method Apply(m: Migration, execError: string -> Option<string>) returns (error: Option<string>)
      modifies this
      ensures error.None? <==> execError(m.filename).None? && m.version !in old(applied)
      ensures error.None? ==> applied == old(applied) + [m.version] && executed == old(executed) + [m.filename]
      ensures error.Some? ==> applied == old(applied) && executed == old(executed)
      ensures error == StepError(m, old(applied), execError)
    {
      // BEGIN TRANSACTION
      var failure := execError(m.filename);
      if failure.Some? {
        // ROLLBACK: the script did not take effect
        return Some("Migration " + m.filename + " failed: " + failure.value);
      }
      if m.version in applied {
        // the INSERT into schema_migrations fails; ROLLBACK undoes the script
        return Some(DuplicateVersion);
      }
      executed := executed + [m.filename];
      applied := applied + [m.version];
      // COMMIT
      error := None;
    }
  }

  /**
   * runMigrations: the pending migrations run in order until one fails; those before it are committed
   * and recorded, the failing one and all after it leave no trace.
   */
  method RunMigrations(db: Database, dirExists: bool, dir: string, listing: seq<string>,
                       execError: string -> Option<string>) returns (r: Result<()>)
    modifies db
    ensures var pending := Pending(GetMigrationFiles(dirExists, dir, listing), old(db.applied));
      var run := Run(pending, old(db.applied), execError);
      db.applied == old(db.applied) + Versions(pending[..run.0]) &&
      db.executed == old(db.executed) + Filenames(pending[..run.0]) &&
      r == (if run.1.None? then Ok(()) else Err(run.1.value))
  {
    var migrationFiles := GetMigrationFiles(dirExists, dir, listing);
    var pending := Pending(migrationFiles, db.applied);
    if |pending| == 0 {
      return Ok(());
    }
    r := RunPending(db, pending, execError);
  }

  /** The loop over the pending migrations, each in its own transaction. */
  method RunPending(db: Database, pending: seq<Migration>, execError: string -> Option<string>) returns (r: Result<()>)
    modifies db
    ensures var run := Run(pending, old(db.applied), execError);
      db.applied == old(db.applied) + Versions(pending[..run.0]) &&
      db.executed == old(db.executed) + Filenames(pending[..run.0]) &&
      r == (if run.1.None? then Ok(()) else Err(run.1.value))
  {
    ghost var total := Run(pending, db.applied, execError);
    var i := 0;
    while i < |pending|
      invariant 0 <= i <= |pending|
      invariant db.applied == old(db.applied) + Versions(pending[..i])
      invariant db.executed == old(db.executed) + Filenames(pending[..i])
      invariant total.0 == i + Run(pending[i..], db.applied, execError).0
      invariant total.1 == Run(pending[i..], db.applied, execError).1
    {
      ghost var before := db.applied;
      var error := db.Apply(pending[i], execError);
      if error.Some? {
        RunStop(pending[i..], before, execError);
        return Err(error.value);
      }
      RunStep(pending[i..], before, execError);
      assert pending[i..][1..] == pending[i + 1..];
      PrefixStep(pending, i);
      i := i + 1;
    }
    assert pending[..i] == pending;
    r := Ok(());
  }

  lemma RunStep(p: seq<Migration>, applied: seq<string>, execError: string -> Option<string>)
    requires |p| > 0 && StepError(p[0], applied, execError).None?
    ensures Run(p, applied, execError).0 == Run(p[1..], applied + [p[0].version], execError).0 + 1
    ensures Run(p, applied, execError).1 == Run(p[1..], applied + [p[0].version], execError).1
  {
  }

  lemma RunStop(p: seq<Migration>, applied: seq<string>, execError: string -> Option<string>)
    requires |p| > 0 && StepError(p[0], applied, execError).Some?
    ensures Run(p, applied, execError) == (0, StepError(p[0], applied, execError))
  {
  }

  lemma PrefixStep(p: seq<Migration>, i: nat)
    requires i < |p|
    ensures Versions(p[..i + 1]) == Versions(p[..i]) + [p[i].version]
    ensures Filenames(p[..i + 1]) == Filenames(p[..i]) + [p[i].filename]
  {
  }

  /** After a run that completes, a second run over the same directory finds nothing pending. */
  lemma SecondRunIdle(files: seq<Migration>, applied: seq<string>, execError: string -> Option<string>)
    requires Run(Pending(files, applied), applied, execError).1.None?
    ensures Pending(files, applied + Versions(Pending(files, applied))) == []
  {
    var pending := Pending(files, applied);
    var after := applied + Versions(pending);
    forall j | 0 <= j < |files| ensures files[j].version in after {
      var m := files[j];
      if m.version !in applied {
        var k :| 0 <= k < |pending| && pending[k] == m;
        assert Versions(pending)[k] == m.version;
      }
    }
    FilterNone(files, (m: Migration) => m.version !in after);
  }
}
