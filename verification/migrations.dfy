/**
 * Schema versioning: the versions recorded in the `schema_version` table and
 * the migrations that bring an older database up to the current version.
 * The SQL of each migration is abstracted to a log entry; which migrations
 * fail is a parameter.
 */
module Migrations {

  /** `CURRENT_VERSION`. */
  const CurrentVersion: int := 3

  /** What a migration run does to the schema: the whole initial schema, or one numbered migration. */
  datatype Step = InitialSchema | Migration(version: int)

  /** The largest of the recorded versions, or 0 when there are none (`COALESCE(MAX(version), 0)`). */
  function MaxOr0(rows: seq<int>): (m: int)
    ensures rows == [] ==> m == 0
    ensures rows != [] ==> m in rows && forall y :: y in rows ==> y <= m
  {
    if rows == [] then 0
    else if |rows| == 1 then rows[0]
    else
      var rest := MaxOr0(rows[1..]);
      assert forall y :: y in rows ==> y == rows[0] || y in rows[1..];
      if rows[0] >= rest then rows[0] else rest
  }

  /** The integers `lo..=hi`, in increasing order. */
  function Range(lo: int, hi: int): (r: seq<int>)
    ensures forall v :: v in r <==> lo <= v <= hi
    decreases hi - lo
  {
    if lo > hi then [] else [lo] + Range(lo + 1, hi)
  }

  /** Versions above every recorded one, appended in increasing order, end with the largest. */
  lemma MaxAfterRange(rows: seq<int>, lo: int, hi: int)
    requires forall y :: y in rows ==> y < lo
    requires lo <= hi + 1
    ensures MaxOr0(rows + Range(lo, hi)) == if lo <= hi then hi else MaxOr0(rows)
  {
    var u := rows + Range(lo, hi);
    if lo <= hi {
      assert hi in Range(lo, hi);
      assert hi in u;
      assert forall y :: y in u ==> y in rows || y in Range(lo, hi);
      assert forall y :: y in u ==> y <= hi;
    } else {
      assert Range(lo, hi) == [];
      assert u == rows;
    }
  }

  /** `Range` grown by one at the top. */
  lemma {:induction false} RangeSnoc(lo: int, hi: int)
    requires lo <= hi + 1
    ensures Range(lo, hi + 1) == Range(lo, hi) + [hi + 1]
    decreases hi + 1 - lo
  {
    if lo <= hi {
      RangeSnoc(lo + 1, hi);
    } else {
      assert Range(hi + 2, hi + 1) == [];
    }
  }

  /** Only migrations 2 and 3 have work to do; `failing` says which of them fail. */
  predicate Fails(v: int, failing: set<int>)
  {
    (v == 2 || v == 3) && v in failing
  }

  /** The version reached by applying migrations `cur + 1` upwards until one fails or the current version is recorded. */
  function Reached(cur: int, failing: set<int>): int
    decreases CurrentVersion - cur
  {
    if cur >= CurrentVersion || Fails(cur + 1, failing) then cur
    else Reached(cur + 1, failing)
  }

  /** The schema work done by migrations `lo..=hi`: one entry for each of 2 and 3, in increasing order. */
  function Applied(lo: int, hi: int): seq<Step>
    decreases hi - lo
  {
    if lo > hi then []
    else (if lo == 2 || lo == 3 then [Migration(lo)] else []) + Applied(lo + 1, hi)
  }

  /**
   * Below the current version, the run reaches the current version exactly
   * when no pending migration fails; otherwise it stops at the version just
   * below the first failing one.
   */
  lemma {:induction false} ReachedMeaning(cur: int, failing: set<int>)
    requires cur < CurrentVersion
    ensures cur <= Reached(cur, failing) <= CurrentVersion
    ensures Reached(cur, failing) == CurrentVersion <==> forall v :: cur < v <= CurrentVersion ==> !Fails(v, failing)
    ensures Reached(cur, failing) < CurrentVersion ==>
      Fails(Reached(cur, failing) + 1, failing) &&
      forall v :: cur < v <= Reached(cur, failing) ==> !Fails(v, failing)
    decreases CurrentVersion - cur
  {
    if !Fails(cur + 1, failing) && cur + 1 < CurrentVersion {
      ReachedMeaning(cur + 1, failing);
    }
  }

  /** Migrations 2 and 3 run in that order, each once, and nothing else does schema work. */
  lemma AppliedFromOne()
    ensures Applied(1, 3) == [Migration(2), Migration(3)]
    ensures Applied(1, 1) == [] && Applied(2, 2) == [Migration(2)] && Applied(3, 3) == [Migration(3)]
  {
    assert Applied(4, 3) == [];
    assert Applied(3, 3) == [Migration(3)];
    assert Applied(2, 3) == [Migration(2), Migration(3)];
  }

  /** The log of `lo..=hi` extended by one version. */
  lemma {:induction false} AppliedSnoc(lo: int, hi: int)
    requires lo <= hi + 1
    ensures Applied(lo, hi + 1) == Applied(lo, hi) + (if hi + 1 == 2 || hi + 1 == 3 then [Migration(hi + 1)] else [])
    decreases hi + 1 - lo
  {
    var last: seq<Step> := if hi + 1 == 2 || hi + 1 == 3 then [Migration(hi + 1)] else [];
    var head: seq<Step> := if lo == 2 || lo == 3 then [Migration(lo)] else [];
    if lo <= hi {
      AppliedSnoc(lo + 1, hi);
      assert Applied(lo, hi + 1) == head + (Applied(lo + 1, hi) + last);
      assert head + (Applied(lo + 1, hi) + last) == (head + Applied(lo + 1, hi)) + last;
    } else {
      assert Applied(hi + 2, hi + 1) == [];
      assert Applied(lo, hi + 1) == last + [];
    }
  }

  /** A database's schema, as far as versioning sees it. */
  class Database {
    /** The `schema_version` table exists. */
    var hasVersionTable: bool
    /** The versions recorded in it, one row each. */
    var versions: seq<int>
    /** The schema work done so far. */
    var log: seq<Step>

    /** No version is recorded without the table. */
    predicate Valid()
      reads this
    {
      !hasVersionTable ==> versions == []
    }

    /** A new, empty database. */
    constructor Empty()
      ensures Valid()
      ensures !hasVersionTable && versions == [] && log == []
    {
      hasVersionTable := false;
      versions := [];
      log := [];
    }

    /** `get_schema_version`: 0 without the table, otherwise the largest recorded version, or 0 without rows. */
    function SchemaVersion(): (v: int)
      reads this
      ensures !hasVersionTable ==> v == 0
      ensures hasVersionTable && versions == [] ==> v == 0
      ensures hasVersionTable && versions != [] ==> v in versions && forall w :: w in versions ==> w <= v
    {
      if !hasVersionTable then 0 else MaxOr0(versions)
    }

    /** `set_schema_version`: records `version`; an existing row for it is replaced, so it stays one row. */
    method SetSchemaVersion(version: int)
      requires hasVersionTable
      modifies this
      ensures hasVersionTable && log == old(log)
      ensures versions == if version in old(versions) then old(versions) else old(versions) + [version]
    {
      if version !in versions {
        versions := versions + [version];
      }
    }

    /** `apply_migration`: migrations 2 and 3 do their work unless they fail; any other version changes nothing. */
    method ApplyMigration(version: int, failing: set<int>) returns (ok: bool)
      modifies this
      ensures ok <==> !Fails(version, failing)
      ensures hasVersionTable == old(hasVersionTable) && versions == old(versions)
      ensures log == old(log) + (if ok && (version == 2 || version == 3) then [Migration(version)] else [])
    {
      if version == 2 || version == 3 {
        if version in failing {
          return false;
        }
        log := log + [Migration(version)];
      }
      ok := true;
    }

    /**
     * The loop of `run_migrations` for a database at version `current`
     * below the current one: migrations `current + 1..=3` in order, each
     * recorded as soon as it succeeds, stopping at the first failure.
     */
    method ApplyPending(current: int, failing: set<int>) returns (ok: bool)
      requires hasVersionTable && current < CurrentVersion
      requires forall y :: y in versions ==> y <= current
      modifies this
      ensures var stop := Reached(current, failing);
        && (ok <==> stop >= CurrentVersion)
        && hasVersionTable
        && versions == old(versions) + Range(current + 1, stop)
        && log == old(log) + Applied(current + 1, stop)
    {
      var version := current + 1;
      while version <= CurrentVersion
        invariant current + 1 <= version <= CurrentVersion + 1
        invariant Reached(current, failing) == Reached(version - 1, failing)
        invariant hasVersionTable
        invariant versions == old(versions) + Range(current + 1, version - 1)
        invariant log == old(log) + Applied(current + 1, version - 1)
      {
        var stepOk := ApplyMigration(version, failing);
        if !stepOk {
          return false;
        }
        assert version !in versions by {
          assert forall y :: y in versions ==> y in old(versions) || y in Range(current + 1, version - 1);
        }
        SetSchemaVersion(version);
        RangeSnoc(current + 1, version - 1);
        AppliedSnoc(current + 1, version - 1);
        version := version + 1;
      }
      ok := true;
    }

    /**
     * `run_migrations`. A fresh database (version 0) gets the whole initial
     * schema and version 3, unless that fails. An older one gets the pending
     * migrations (`ApplyPending`). A current one is left alone.
     */
    method RunMigrations(initialFails: bool, failing: set<int>) returns (ok: bool)
      requires Valid()
      modifies this
      ensures Valid()
      ensures old(SchemaVersion()) == 0 && initialFails ==>
        !ok && hasVersionTable == old(hasVersionTable) && versions == old(versions) && log == old(log)
      ensures old(SchemaVersion()) == 0 && !initialFails ==>
        ok && hasVersionTable && versions == old(versions) + [CurrentVersion] && log == old(log) + [InitialSchema]
      ensures old(SchemaVersion()) != 0 ==>
        var cur := old(SchemaVersion());
        var stop := Reached(cur, failing);
        && (ok <==> stop >= CurrentVersion)
        && hasVersionTable == old(hasVersionTable)
        && versions == old(versions) + Range(cur + 1, stop)
        && log == old(log) + Applied(cur + 1, stop)
      ensures old(SchemaVersion()) != 0 ==> SchemaVersion() == Reached(old(SchemaVersion()), failing)
      ensures old(SchemaVersion()) == 0 && !initialFails ==> SchemaVersion() == CurrentVersion
    {
      var current := SchemaVersion();
      if current == 0 {
        if initialFails {
          return false;
        }
        hasVersionTable := true;
        log := log + [InitialSchema];
        assert CurrentVersion !in versions;
        SetSchemaVersion(CurrentVersion);
        assert Range(CurrentVersion, CurrentVersion) == [CurrentVersion];
        MaxAfterRange(old(versions), CurrentVersion, CurrentVersion);
      } else if current < CurrentVersion {
        ok := ApplyPending(current, failing);
        var stop := Reached(current, failing);
        ReachedMeaning(current, failing);
        MaxAfterRange(old(versions), current + 1, stop);
        return;
      } else {
        assert Range(current + 1, current) == [];
        assert Applied(current + 1, current) == [];
      }
      ok := true;
    }
  }

  /** A new database is brought to the current version by the initial schema alone. */
  method FreshDatabaseMigration() returns (ok: bool, version: int, log: seq<Step>)
    ensures ok && version == CurrentVersion && log == [InitialSchema]
  {
    var db := new Database.Empty();
    ok := db.RunMigrations(false, {});
    version := db.SchemaVersion();
    log := db.log;
  }

  /**
   * Without failures, a database at or below the current version ends at
   * the current version, and a second run changes nothing.
   */
  method MigrateTwice(db: Database) returns (first: int, second: int, firstLog: seq<Step>, secondLog: seq<Step>)
    requires db.Valid() && db.SchemaVersion() <= CurrentVersion
    modifies db
    ensures first == CurrentVersion && second == CurrentVersion && secondLog == firstLog
  {
    if db.SchemaVersion() != 0 && db.SchemaVersion() < CurrentVersion {
      ReachedMeaning(db.SchemaVersion(), {});
    }
    var ok1 := db.RunMigrations(false, {});
    first := db.SchemaVersion();
    firstLog := db.log;
    var ok2 := db.RunMigrations(false, {});
    second := db.SchemaVersion();
    secondLog := db.log;
    assert Applied(CurrentVersion + 1, CurrentVersion) == [];
  }
}
