/** The migration runner: one transaction over a catalog, and the check a starting service makes. */
module Migrations {
  import opened Wrappers
  import opened Text
  import opened Sorting

  datatype Migration = Migration(
    version: string, name: string, moduleId: string, sql: string, checksum: nat, evidence: seq<string>,
    blocksStartup: bool)

  datatype Row = Row(name: string, moduleId: string, checksum: nat, evidence: seq<string>, blocksStartup: bool)

  type Table = map<string, Row>

  /** A row as it is stored. Tables of earlier releases lack the last three columns, and rows can
      lack a value in them until the columns are tightened. */
  datatype StoredRow = StoredRow(
    name: string, moduleId: Option<string>, checksum: nat, evidence: Option<seq<string>>, blocksStartup: Option<bool>)
  {
    /** The values `ensure_schema_migrations_table` fills in. */
    function Filled(): Row {
      Row(name, if moduleId.Some? then moduleId.value else "core", checksum,
          if evidence.Some? then evidence.value else [], if blocksStartup.Some? then blocksStartup.value else true)
    }
  }

  datatype StoredTable = StoredTable(rows: map<string, StoredRow>, hasColumns: bool)

  function Upgraded(t: StoredTable): Table {
    map v | v in t.rows :: t.rows[v].Filled()
  }

  function Stored(row: Row): StoredRow {
    StoredRow(row.name, Some(row.moduleId), row.checksum, Some(row.evidence), Some(row.blocksStartup))
  }

  function AsStored(t: Table): StoredTable {
    StoredTable(map v | v in t :: Stored(t[v]), true)
  }

  datatype MigrationError =
    | ChecksumMismatch(version: string) | SqlFailed(version: string)
    | TableMissing | ColumnMissing
    | StartupMissing(version: string) | MetadataMismatch(version: string) | UnknownBlocking

  /** Whether a migration's SQL runs, given the SQL that ran before it. */
  type Runner = (seq<string>, string) -> bool

  function SortRefs(refs: seq<string>): seq<string> {
    Sort(refs, (a, b) => StringLeq(a, b))
  }

  /** The row an applied or backfilled migration leaves. */
  function RowFor(m: Migration): Row {
    Row(m.name, m.moduleId, m.checksum, SortRefs(m.evidence), m.blocksStartup)
  }

  /** A transaction in progress: the table, the SQL run so far, and the two lists of versions. */
  datatype Progress = Progress(table: Table, executed: seq<string>, applied: seq<string>, skipped: seq<string>)

  function Step(runs: Runner, p: Progress, m: Migration): Result<Progress, MigrationError> {
    if m.version in p.table then
      if p.table[m.version].checksum != m.checksum then Err(ChecksumMismatch(m.version))
      else Ok(p.(table := p.table[m.version := RowFor(m)], skipped := p.skipped + [m.version]))
    else if !runs(p.executed, m.sql) then Err(SqlFailed(m.version))
    else Ok(Progress(p.table[m.version := RowFor(m)], p.executed + [m.sql], p.applied + [m.version], p.skipped))
  }

  function StepAll(runs: Runner, p: Progress, catalog: seq<Migration>): Result<Progress, MigrationError> {
    if catalog == [] then Ok(p)
    else
      var front :- StepAll(runs, p, catalog[..|catalog| - 1]);
      Step(runs, front, catalog[|catalog| - 1])
  }

  datatype Db = Db(table: Option<StoredTable>, executed: seq<string>)

  /** The transaction begins with the table in place, created if it was missing and upgraded if it is
      of an earlier release. */
  function Begin(db: Db): Progress {
    Progress(if db.table.Some? then Upgraded(db.table.value) else map[], db.executed, [], [])
  }

  /** `apply_migrations`: a success commits, an error rolls everything back. */
  function Apply(runs: Runner, db: Db, catalog: seq<Migration>): (Db, Result<Progress, MigrationError>) {
    var r := StepAll(runs, Begin(db), catalog);
    (if r.Ok? then Db(Some(AsStored(r.value.table)), r.value.executed) else db, r)
  }

  predicate RowMatches(row: StoredRow, m: Migration) {
    && row.name == m.name && row.moduleId == Some(m.moduleId) && row.checksum == m.checksum
    && SortRefs(if row.evidence.Some? then row.evidence.value else []) == SortRefs(m.evidence)
    && (row.blocksStartup == Some(true)) == m.blocksStartup
  }

  function VerifyCatalog(table: map<string, StoredRow>, catalog: seq<Migration>): Result<(), MigrationError> {
    if catalog == [] then Ok(())
    else
      var m := catalog[0];
      if m.version !in table then
        if m.blocksStartup then Err(StartupMissing(m.version)) else VerifyCatalog(table, catalog[1..])
      else if !RowMatches(table[m.version], m) then Err(MetadataMismatch(m.version))
      else VerifyCatalog(table, catalog[1..])
  }

  predicate Known(catalog: seq<Migration>, version: string) {
    exists m | m in catalog :: m.version == version
  }

  /** A row that blocks startup and that the catalog does not know. */
  predicate UnknownBlocks(table: map<string, StoredRow>, catalog: seq<Migration>) {
    exists v | v in table :: !Known(catalog, v) && table[v].blocksStartup == Some(true)
  }

  /** `verify_migration_startup_state`. */
  function Verify(table: Option<StoredTable>, catalog: seq<Migration>): Result<(), MigrationError> {
    if table.None? then Err(TableMissing)
    else if !table.value.hasColumns then Err(ColumnMissing)
    else
      var _ :- VerifyCatalog(table.value.rows, catalog);
      if UnknownBlocks(table.value.rows, catalog) then Err(UnknownBlocking) else Ok(())
  }

  // ---- the database as an object ----

  class MigrationDatabase {
    var table: Option<StoredTable>
    var executed: seq<string>

    function State(): Db
      reads this
    {
      Db(table, executed)
    }

    constructor ()
      ensures State() == Db(None, [])
    {
      table, executed := None, [];
    }

    /** The loop works on the transaction's own copies; only the commit publishes them. */
    method ApplyMigrations(runs: Runner, catalog: seq<Migration>)
      returns (r: Result<(seq<string>, seq<string>), MigrationError>)
      modifies this
      ensures State() == Apply(runs, old(State()), catalog).0
      ensures match Apply(runs, old(State()), catalog).1
              case Ok(p) => r == Ok((p.applied, p.skipped))
              case Err(e) => r == Err(e)
    {
      var rows: Table := if table.Some? then Upgraded(table.value) else map[];
      var ran := executed;
      var applied: seq<string>, skipped: seq<string> := [], [];
      for i := 0 to |catalog|
        invariant State() == old(State())
        invariant StepAll(runs, Begin(State()), catalog[..i]) == Ok(Progress(rows, ran, applied, skipped))
      {
        assert catalog[..i + 1][..i] == catalog[..i];
        var m := catalog[i];
        if m.version in rows {
          if rows[m.version].checksum != m.checksum {
            StepAllFails(runs, Begin(State()), catalog, i + 1);
            return Err(ChecksumMismatch(m.version));
          }
          rows := rows[m.version := RowFor(m)];
          skipped := skipped + [m.version];
          continue;
        }
        if !runs(ran, m.sql) {
          StepAllFails(runs, Begin(State()), catalog, i + 1);
          return Err(SqlFailed(m.version));
        }
        ran := ran + [m.sql];
        rows := rows[m.version := RowFor(m)];
        applied := applied + [m.version];
      }
      assert catalog[..|catalog|] == catalog;
      table, executed := Some(AsStored(rows)), ran;
      return Ok((applied, skipped));
    }

    method VerifyStartup(catalog: seq<Migration>) returns (r: Result<(), MigrationError>)
      ensures r == Verify(table, catalog)
    {
      if table.None? {
        return Err(TableMissing);
      }
      if !table.value.hasColumns {
        return Err(ColumnMissing);
      }
      var rows := table.value.rows;
      assert catalog[0..] == catalog;
      for i := 0 to |catalog|
        invariant VerifyCatalog(rows, catalog) == VerifyCatalog(rows, catalog[i..])
      {
        var m := catalog[i];
        assert catalog[i..][1..] == catalog[i + 1..];
        if m.version !in rows {
          if m.blocksStartup {
            return Err(StartupMissing(m.version));
          }
          continue;
        }
        if !RowMatches(rows[m.version], m) {
          return Err(MetadataMismatch(m.version));
        }
      }
      if exists v | v in rows :: !Known(catalog, v) && rows[v].blocksStartup == Some(true) {
        return Err(UnknownBlocking);
      }
      return Ok(());
    }
  }

  lemma {:induction false} StepAllFails(runs: Runner, p: Progress, catalog: seq<Migration>, n: nat)
    requires n <= |catalog| && StepAll(runs, p, catalog[..n]).Err?
    ensures StepAll(runs, p, catalog) == StepAll(runs, p, catalog[..n])
    decreases |catalog| - n
  {
    if n == |catalog| {
      assert catalog[..n] == catalog;
    } else {
      assert catalog[..n + 1][..n] == catalog[..n];
      StepAllFails(runs, p, catalog, n + 1);
    }
  }

  // ---- what a run does ----

  predicate DistinctVersions(catalog: seq<Migration>) {
    forall i, j :: 0 <= i < j < |catalog| ==> catalog[i].version != catalog[j].version
  }

  /** The migrations of the catalog whose version is, or is not, in the table, in catalog order. */
  function Split(catalog: seq<Migration>, table: Table, stored: bool): seq<Migration> {
    if catalog == [] then []
    else
      var last := catalog[|catalog| - 1];
      Split(catalog[..|catalog| - 1], table, stored) + if (last.version in table) == stored then [last] else []
  }

  function Versions(catalog: seq<Migration>): seq<string> {
    seq(|catalog|, i requires 0 <= i < |catalog| => catalog[i].version)
  }

  function Sqls(catalog: seq<Migration>): seq<string> {
    seq(|catalog|, i requires 0 <= i < |catalog| => catalog[i].sql)
  }

  /** The table after a successful run. */
  function TableAfter(before: Table, catalog: seq<Migration>): Table {
    if catalog == [] then before
    else
      var last := catalog[|catalog| - 1];
      TableAfter(before, catalog[..|catalog| - 1])[last.version := RowFor(last)]
  }

  /** A version's row belongs to the last migration of the catalog with that version, or is the old one. */
  lemma {:induction false} RowAfter(before: Table, catalog: seq<Migration>, v: string)
    ensures v in TableAfter(before, catalog) <==> v in before || Known(catalog, v)
    ensures !Known(catalog, v) && v in before ==> TableAfter(before, catalog)[v] == before[v]
  {
    if catalog != [] {
      RowAfter(before, catalog[..|catalog| - 1], v);
      KnownSplits(catalog, v);
    }
  }

  lemma KnownSplits(catalog: seq<Migration>, v: string)
    requires catalog != []
    ensures Known(catalog, v) <==> Known(catalog[..|catalog| - 1], v) || catalog[|catalog| - 1].version == v
  {
    assert catalog == catalog[..|catalog| - 1] + [catalog[|catalog| - 1]];
    assert catalog[|catalog| - 1] in catalog;
  }

  /** With distinct versions every migration of the catalog has its own row. */
  lemma {:induction false} OwnRow(before: Table, catalog: seq<Migration>, i: nat)
    requires DistinctVersions(catalog) && i < |catalog|
    ensures catalog[i].version in TableAfter(before, catalog)
            && TableAfter(before, catalog)[catalog[i].version] == RowFor(catalog[i])
  {
    if i < |catalog| - 1 {
      OwnRow(before, catalog[..|catalog| - 1], i);
    }
  }

  predicate ChecksumsAgree(table: Table, catalog: seq<Migration>) {
    forall m :: m in catalog && m.version in table ==> table[m.version].checksum == m.checksum
  }

  /** The SQL of each migration runs after that of those before it. */
  predicate SqlRuns(runs: Runner, executed: seq<string>, todo: seq<Migration>) {
    forall i :: 0 <= i < |todo| ==> runs(executed + Sqls(todo[..i]), todo[i].sql)
  }

  /** Whether a run goes through: no stored checksum differs, and the SQL of the migrations not yet
      stored runs. */
  predicate Runs(runs: Runner, db: Db, catalog: seq<Migration>) {
    var table := Begin(db).table;
    ChecksumsAgree(table, catalog) && SqlRuns(runs, db.executed, Split(catalog, table, false))
  }

  ghost predicate Outcome(db: Db, catalog: seq<Migration>, p: Progress) {
    var table := Begin(db).table;
    && p.applied == Versions(Split(catalog, table, false)) && p.skipped == Versions(Split(catalog, table, true))
    && p.executed == db.executed + Sqls(Split(catalog, table, false))
    && p.table == TableAfter(table, catalog)
  }

  /** A run either raises, leaving the database as it was, or splits the catalog in order into the
      applied and the skipped, runs the SQL of exactly the applied, and records every migration. */
  lemma {:induction false} RunSplitsCatalog(runs: Runner, db: Db, catalog: seq<Migration>)
    requires DistinctVersions(catalog)
    ensures var (after, r) := Apply(runs, db, catalog);
            && (r.Err? ==> after == db)
            && (r.Ok? ==> after == Db(Some(AsStored(r.value.table)), r.value.executed) && Outcome(db, catalog, r.value))
  {
    if catalog != [] {
      var n := |catalog| - 1;
      RunSplitsCatalog(runs, db, catalog[..n]);
      var front := StepAll(runs, Begin(db), catalog[..n]);
      if front.Ok? && Step(runs, front.value, catalog[n]).Ok? {
        StepOutcome(runs, db, catalog, front.value);
      }
    }
  }

  /** Before its turn, a version's row is the one stored at the start. */
  lemma TurnOf(before: Table, catalog: seq<Migration>)
    requires catalog != [] && DistinctVersions(catalog)
    ensures var v := catalog[|catalog| - 1].version;
            var front := TableAfter(before, catalog[..|catalog| - 1]);
            (v in front <==> v in before) && (v in front ==> front[v] == before[v])
  {
    RowAfter(before, catalog[..|catalog| - 1], catalog[|catalog| - 1].version);
  }

  lemma ListsAppend(s: seq<Migration>, m: Migration)
    ensures Versions(s + [m]) == Versions(s) + [m.version] && Sqls(s + [m]) == Sqls(s) + [m.sql]
  {
  }

  lemma StepOutcome(runs: Runner, db: Db, catalog: seq<Migration>, front: Progress)
    requires catalog != [] && DistinctVersions(catalog) && Outcome(db, catalog[..|catalog| - 1], front)
    requires Step(runs, front, catalog[|catalog| - 1]).Ok?
    ensures Outcome(db, catalog, Step(runs, front, catalog[|catalog| - 1]).value)
  {
    var n := |catalog| - 1;
    var m := catalog[n];
    var table := Begin(db).table;
    var todo, done := Split(catalog[..n], table, false), Split(catalog[..n], table, true);
    TurnOf(table, catalog);
    SplitStep(catalog, table);
    ListsAppend(todo, m);
    ListsAppend(done, m);
  }

  lemma SplitStep(catalog: seq<Migration>, table: Table)
    requires catalog != []
    ensures var front, m := catalog[..|catalog| - 1], catalog[|catalog| - 1];
            && Split(catalog, table, false)
               == (if m.version in table then Split(front, table, false) else Split(front, table, false) + [m])
            && Split(catalog, table, true)
               == (if m.version in table then Split(front, table, true) + [m] else Split(front, table, true))
  {
  }

  /** Exactly when a run goes through. */
  lemma {:induction false} RunSucceedsExactly(runs: Runner, db: Db, catalog: seq<Migration>)
    requires DistinctVersions(catalog)
    ensures Apply(runs, db, catalog).1.Ok? <==> Runs(runs, db, catalog)
  {
    if catalog != [] {
      var n := |catalog| - 1;
      var m := catalog[n];
      RunSucceedsExactly(runs, db, catalog[..n]);
      RunSplitsCatalog(runs, db, catalog[..n]);
      assert catalog == catalog[..n] + [m];
      RunsSplits(runs, db, catalog);
      if StepAll(runs, Begin(db), catalog[..n]).Ok? {
        TurnOf(Begin(db).table, catalog);
      }
    }
  }

  lemma RunsSplits(runs: Runner, db: Db, catalog: seq<Migration>)
    requires catalog != []
    ensures var n := |catalog| - 1;
            var m := catalog[n];
            var table := Begin(db).table;
            Runs(runs, db, catalog)
            <==> Runs(runs, db, catalog[..n])
                 && (if m.version in table then table[m.version].checksum == m.checksum
                     else runs(db.executed + Sqls(Split(catalog[..n], table, false)), m.sql))
  {
    var n := |catalog| - 1;
    var m := catalog[n];
    var table := Begin(db).table;
    ChecksumsAppend(table, catalog[..n], m);
    assert catalog == catalog[..n] + [m];
    SplitStep(catalog, table);
    SqlRunsAppend(runs, db.executed, Split(catalog[..n], table, false), m);
  }

  lemma ChecksumsAppend(table: Table, catalog: seq<Migration>, m: Migration)
    ensures ChecksumsAgree(table, catalog + [m])
            <==> ChecksumsAgree(table, catalog) && (m.version in table ==> table[m.version].checksum == m.checksum)
  {
    assert m in catalog + [m];
    assert forall k :: k in catalog ==> k in catalog + [m];
  }

  lemma SqlRunsAppend(runs: Runner, executed: seq<string>, todo: seq<Migration>, m: Migration)
    ensures SqlRuns(runs, executed, todo + [m]) <==> SqlRuns(runs, executed, todo) && runs(executed + Sqls(todo), m.sql)
  {
    assert forall i :: 0 <= i < |todo| ==> (todo + [m])[..i] == todo[..i];
    assert (todo + [m])[..|todo|] == todo && (todo + [m])[|todo|] == m;
  }

  // ---- after a success ----

  lemma SortRefsTwice(refs: seq<string>)
    ensures SortRefs(SortRefs(refs)) == SortRefs(refs)
  {
    var leq := (a: string, b: string) => StringLeq(a, b);
    forall a, b ensures leq(a, b) || leq(b, a) {
      StringLeqTotal(a, b);
    }
    forall a, b, c | leq(a, b) && leq(b, c) ensures leq(a, c) {
      StringLeqTransitive(a, b, c);
    }
    forall a, b | a in SortRefs(refs) && b in SortRefs(refs) && leq(a, b) && leq(b, a) ensures a == b {
      StringLeqTotal(a, b);
    }
    SortForgetsOrder(SortRefs(refs), refs, leq);
  }

  lemma {:induction false} RecordedVerifies(table: Table, catalog: seq<Migration>)
    requires forall m :: m in catalog ==> m.version in table && table[m.version] == RowFor(m)
    ensures VerifyCatalog(AsStored(table).rows, catalog).Ok?
  {
    if catalog != [] {
      SortRefsTwice(catalog[0].evidence);
      RecordedVerifies(table, catalog[1..]);
    }
  }

  /** After a successful run the startup check accepts exactly when no unknown startup-blocking row
      was stored already. */
  lemma AppliedVerifies(runs: Runner, db: Db, catalog: seq<Migration>)
    requires DistinctVersions(catalog) && Apply(runs, db, catalog).1.Ok?
    ensures Verify(Apply(runs, db, catalog).0.table, catalog).Ok?
            <==> !UnknownBlocks(AsStored(Begin(db).table).rows, catalog)
  {
    RunSplitsCatalog(runs, db, catalog);
    var before := Begin(db).table;
    var after := Apply(runs, db, catalog).1.value.table;
    forall m | m in catalog ensures m.version in after && after[m.version] == RowFor(m) {
      var i :| 0 <= i < |catalog| && catalog[i] == m;
      OwnRow(before, catalog, i);
    }
    RecordedVerifies(after, catalog);
    SameUnknownBlocks(before, catalog, after);
  }

  lemma SameUnknownBlocks(before: Table, catalog: seq<Migration>, after: Table)
    requires after == TableAfter(before, catalog)
    ensures UnknownBlocks(AsStored(after).rows, catalog) <==> UnknownBlocks(AsStored(before).rows, catalog)
  {
    forall v ensures v in after <==> v in before || Known(catalog, v)
             ensures !Known(catalog, v) && v in before ==> after[v] == before[v] {
      RowAfter(before, catalog, v);
    }
  }

  lemma {:induction false} AllStored(catalog: seq<Migration>, table: Table)
    requires forall m :: m in catalog ==> m.version in table
    ensures Split(catalog, table, false) == [] && Split(catalog, table, true) == catalog
  {
    if catalog != [] {
      AllStored(catalog[..|catalog| - 1], table);
      assert catalog == catalog[..|catalog| - 1] + [catalog[|catalog| - 1]];
    }
  }

  /** Upgrading a table that has been stored by a run changes nothing. */
  lemma UpgradedOnce(t: Table)
    ensures Upgraded(AsStored(t)) == t
  {
  }

  /** Writing rows that are already there changes nothing. */
  lemma {:induction false} TableAfterAgain(table: Table, catalog: seq<Migration>)
    requires forall i :: 0 <= i < |catalog| ==>
               catalog[i].version in table && table[catalog[i].version] == RowFor(catalog[i])
    ensures TableAfter(table, catalog) == table
  {
    if catalog != [] {
      TableAfterAgain(table, catalog[..|catalog| - 1]);
    }
  }

  /** A second run of the same catalog applies nothing, runs no SQL, skips everything and changes
      nothing, whether or not SQL would still run. */
  lemma SecondRunSkipsAll(runs: Runner, runs': Runner, db: Db, catalog: seq<Migration>)
    requires DistinctVersions(catalog) && Apply(runs, db, catalog).1.Ok?
    ensures var once := Apply(runs, db, catalog).0;
            var (twice, r) := Apply(runs', once, catalog);
            r.Ok? && twice == once && r.value.applied == [] && r.value.skipped == Versions(catalog)
  {
    RunSplitsCatalog(runs, db, catalog);
    var once := Apply(runs, db, catalog).0;
    var table := Apply(runs, db, catalog).1.value.table;
    UpgradedOnce(table);
    forall i | 0 <= i < |catalog|
      ensures catalog[i].version in table && table[catalog[i].version] == RowFor(catalog[i])
    {
      OwnRow(Begin(db).table, catalog, i);
    }
    AllStored(catalog, table);
    TableAfterAgain(table, catalog);
    RunSucceedsExactly(runs', once, catalog);
    RunSplitsCatalog(runs', once, catalog);
  }
}
