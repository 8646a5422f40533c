/** The printed text of whole plans and full syncs splits back into their statements. */
module PlanTexts {
  import opened Common
  import opened Plans
  import opened Programs
  import opened Literals
  import opened Dedup
  import opened StatementText
  import Pg = Postgres
  import PgSync = PostgresFullSync
  import PgText = PostgresText
  import Ch = ClickHouse
  import ChExport = ClickHouseExport
  import ChSync = ClickHouseFullSync
  import ChText = ClickHouseText

  // ---- migration plans on ClickHouse ----

  lemma {:induction false} PrimaryKeysAreClean(plan: seq<Op>, t: string)
    requires forall i :: 0 <= i < |plan| ==> CleanOp(plan[i])
    ensures CleanNames(PkFor(ChExport.PrimaryKeysOf(plan), t))
    decreases |plan|
  {
    if plan != [] {
      var front, op := plan[..|plan| - 1], plan[|plan| - 1];
      PrimaryKeysAreClean(front, t);
      assert CleanOp(op);
      if op.CreateTable? {
        KeyColumnsAreClean(op.columns);
      }
    }
  }

  lemma {:induction false} ConditionedIsClean(rows: seq<LiteralRow>, pk: seq<string>)
    requires forall r :: r in rows ==> CleanRow(r)
    ensures forall r :: r in ChExport.Conditioned(rows, pk) ==> CleanRow(r)
    decreases |rows|
  {
    if rows != [] {
      ConditionedIsClean(rows[..|rows| - 1], pk);
    }
  }

  lemma ChunkIsClean(table: string, pk: seq<string>, rows: seq<LiteralRow>)
    requires NoNewline(table) && CleanNames(pk) && forall r :: r in rows ==> CleanRow(r)
    ensures forall s :: s in ChExport.Chunk(table, pk, rows) ==> ChText.Clean(s) && !s.Truncate?
  {
    ConditionedIsClean(rows, pk);
  }

  lemma {:induction false} ExportIsClean(printer: Printer, pks: map<string, seq<string>>, ops: seq<Op>)
    requires SingleLinePrinter(printer) && (forall t :: CleanNames(PkFor(pks, t)))
    requires forall i :: 0 <= i < |ops| ==> CleanOp(ops[i])
    ensures forall s ::
              s in ChExport.Exported(LiteralOf(ClickHouseSql, printer), pks, ops).lines ==>
                ChText.Clean(s) && !s.Truncate?
    decreases |ops|
  {
    if ops != [] {
      var front, op, lit := ops[..|ops| - 1], ops[|ops| - 1], LiteralOf(ClickHouseSql, printer);
      ExportIsClean(printer, pks, front);
      if op.InsertRows? {
        var e, printed, pk := ChExport.Exported(lit, pks, front), PrintedAll(lit, op.rows), PkFor(pks, op.table);
        PrintedRowsAreClean(ClickHouseSql, printer, op.rows);
        KeptAreRows(op.table, printed, pk, SeenIn(e.seen, op.table));
        ChunkIsClean(op.table, pk, Deduplicate(op.table, printed, pk, SeenIn(e.seen, op.table)).rows);
      }
    }
  }

  /** The round trip for migration plans on ClickHouse: names and types without newlines are enough. */
  lemma ClickHousePlanSplits(printer: Printer, plan: seq<Op>)
    requires SingleLinePrinter(printer) && forall i :: 0 <= i < |plan| ==> CleanOp(plan[i])
    ensures var stmts := ChExport.Program(LiteralOf(ClickHouseSql, printer), plan);
            stmts != [] ==> Split(ChText.SqlText(stmts)) == Terminated(ChText.Bodies(stmts))
  {
    var stmts := ChExport.Program(LiteralOf(ClickHouseSql, printer), plan);
    forall t ensures CleanNames(PkFor(ChExport.PrimaryKeysOf(plan), t)) { PrimaryKeysAreClean(plan, t); }
    ExportIsClean(printer, ChExport.PrimaryKeysOf(plan), plan);
    if stmts != [] {
      assert forall i :: 0 <= i < |stmts| ==> stmts[i] in stmts;
      ChText.TextSplitsExactlyWhenSteady(stmts);
    }
  }

  // ---- full syncs ----

  /** Names, types and keys of a table hold no newline. */
  predicate CleanTable(t: FullSyncTable) {
    && NoNewline(t.name) && CleanNames(t.primaryKey)
    && (forall i :: 0 <= i < |t.columns| ==> NoNewline(t.columns[i].name) && CleanType(t.columns[i].sqlType))
    && forall r :: r in t.rows ==> CleanPlanRow(r)
  }

  lemma {:induction false} PresentKeysAreClean(row: LiteralRow, pk: seq<string>)
    requires CleanNames(pk)
    ensures CleanNames(PgSync.PresentKeys(row, pk))
    decreases |pk|
  {
    if pk != [] {
      PresentKeysAreClean(row, pk[..|pk| - 1]);
    }
  }

  lemma ConditionIsClean(row: LiteralRow, pk: seq<string>)
    requires CleanRow(row) && CleanNames(pk)
    ensures CleanRow(PgSync.Condition(row, pk))
  {
    PgSync.PresentKeysAre(row, pk);
    PresentKeysAreClean(row, pk);
    var keys := PgSync.PresentKeys(row, pk);
    forall i | 0 <= i < |keys| ensures NoNewline(KeyOf(row, keys)[i]) { assert Carries(row, keys[i]); }
  }

  lemma {:induction false} ConditionsAreClean(rows: seq<LiteralRow>, pk: seq<string>)
    requires CleanNames(pk) && forall r :: r in rows ==> CleanRow(r)
    ensures forall r :: r in PgSync.Conditions(rows, pk) ==> CleanRow(r)
    decreases |rows|
  {
    if rows != [] {
      ConditionsAreClean(rows[..|rows| - 1], pk);
      ConditionIsClean(rows[|rows| - 1], pk);
    }
  }

  lemma PgStatementIsClean(printer: Printer, t: FullSyncTable, s: Pg.Statement)
    requires SingleLinePrinter(printer) && CleanTable(t)
    requires var lit := LiteralOf(PostgresSql, printer);
             s in PgSync.Creates(t) || s in PgSync.TableUpserts(lit)(t) || s in PgSync.Deletes(lit)(t)
    ensures PgText.Clean(s)
  {
    var printed := PrintedAll(LiteralOf(PostgresSql, printer), t.rows);
    PrintedRowsAreClean(PostgresSql, printer, t.rows);
    ConditionsAreClean(printed, t.primaryKey);
  }

  lemma PgSyncIsClean(printer: Printer, tables: seq<FullSyncTable>, s: Pg.Statement)
    requires SingleLinePrinter(printer) && forall t :: t in tables ==> CleanTable(t)
    requires s in PgSync.FullSyncProgram(LiteralOf(PostgresSql, printer), tables)
    ensures PgText.Clean(s)
  {
    var lit := LiteralOf(PostgresSql, printer);
    if s in Flat(tables, PgSync.Creates) {
      FlatMembers(tables, PgSync.Creates, s);
      var t :| t in tables && s in PgSync.Creates(t);
      PgStatementIsClean(printer, t, s);
    } else if s in Flat(tables, PgSync.TableUpserts(lit)) {
      FlatMembers(tables, PgSync.TableUpserts(lit), s);
      var t :| t in tables && s in PgSync.TableUpserts(lit)(t);
      PgStatementIsClean(printer, t, s);
    } else {
      FlatMembers(Reversed(tables), PgSync.Deletes(lit), s);
      var t :| t in Reversed(tables) && s in PgSync.Deletes(lit)(t);
      PgStatementIsClean(printer, t, s);
    }
  }

  /** The round trip for full syncs on Postgres. */
  lemma PostgresFullSyncSplits(printer: Printer, tables: seq<FullSyncTable>)
    requires SingleLinePrinter(printer) && tables != [] && forall t :: t in tables ==> CleanTable(t)
    ensures var stmts := PgSync.FullSyncProgram(LiteralOf(PostgresSql, printer), tables);
            stmts != [] && Split(PgText.SqlText(stmts)) == Terminated(PgText.Bodies(stmts))
  {
    var stmts := PgSync.FullSyncProgram(LiteralOf(PostgresSql, printer), tables);
    assert PgSync.Creates(tables[|tables| - 1]) != [];
    forall i | 0 <= i < |stmts| ensures PgText.Clean(stmts[i]) { PgSyncIsClean(printer, tables, stmts[i]); }
    PgText.TextSplitsIntoItsStatements(stmts);
  }

  lemma ChSyncIsClean(printer: Printer, tables: seq<FullSyncTable>, s: Ch.Statement)
    requires SingleLinePrinter(printer) && forall t :: t in tables ==> CleanTable(t)
    requires s in ChSync.FullSyncProgram(LiteralOf(ClickHouseSql, printer), tables)
    ensures ChText.Clean(s) && exists t :: t in tables && t.name == s.table
  {
    var lit := LiteralOf(ClickHouseSql, printer);
    if s in Flat(tables, ChSync.Creates) {
      FlatMembers(tables, ChSync.Creates, s);
    } else if s in Flat(Reversed(tables), ChSync.Truncates) {
      FlatMembers(Reversed(tables), ChSync.Truncates, s);
      var t :| t in Reversed(tables) && s in ChSync.Truncates(t);
      assert t in tables;
    } else {
      FlatMembers(tables, ChSync.TableInserts(lit), s);
      var t :| t in tables && s in ChSync.TableInserts(lit)(t);
      PrintedRowsAreClean(ClickHouseSql, printer, t.rows);
    }
  }

  /** The last truncate of a full sync is the first table's, and it is the last statement when there
      is no row to insert. */
  predicate EndsTheProgram(tables: seq<FullSyncTable>, i: nat) {
    i == 0 && forall t :: t in tables ==> t.rows == []
  }

  /** A full sync is its creates, then its truncates, the first table's last, then its inserts. */
  lemma ProgramParts(lit: Value -> string, tables: seq<FullSyncTable>)
    ensures var stmts, n := ChSync.FullSyncProgram(lit, tables), |tables|;
            && |Flat(tables, ChSync.Creates)| == n && |Flat(Reversed(tables), ChSync.Truncates)| == n
            && |stmts| == 2 * n + |Flat(tables, ChSync.TableInserts(lit))|
            && stmts[n..2 * n] == Flat(Reversed(tables), ChSync.Truncates)
            && stmts[..n] == Flat(tables, ChSync.Creates) && stmts[2 * n..] == Flat(tables, ChSync.TableInserts(lit))
  {
    FlatSingles(tables, ChSync.Creates);
    FlatSingles(Reversed(tables), ChSync.Truncates);
  }

  lemma TruncateAt(tables: seq<FullSyncTable>, i: nat)
    requires i < |tables|
    ensures |Flat(Reversed(tables), ChSync.Truncates)| == |tables|
    ensures Flat(Reversed(tables), ChSync.Truncates)[|tables| - 1 - i] == Ch.Truncate(tables[i].name)
  {
    var back := Reversed(tables);
    FlatSingles(back, ChSync.Truncates);
    assert back[|tables| - 1 - i] == tables[i];
    assert [Flat(back, ChSync.Truncates)[|tables| - 1 - i]] == ChSync.Truncates(back[|tables| - 1 - i]);
  }

  lemma OthersAreNoTruncates(lit: Value -> string, tables: seq<FullSyncTable>, s: Ch.Statement)
    requires s in Flat(tables, ChSync.Creates) || s in Flat(tables, ChSync.TableInserts(lit))
    ensures !s.Truncate?
  {
    if s in Flat(tables, ChSync.Creates) {
      FlatMembers(tables, ChSync.Creates, s);
    } else {
      FlatMembers(tables, ChSync.TableInserts(lit), s);
    }
  }

  lemma ProgramLength(lit: Value -> string, tables: seq<FullSyncTable>)
    ensures var stmts, n := ChSync.FullSyncProgram(lit, tables), |tables|;
            |stmts| >= 2 * n && (|stmts| == 2 * n <==> forall t :: t in tables ==> t.rows == [])
  {
    ProgramParts(lit, tables);
    FlatIsEmpty(tables, ChSync.TableInserts(lit));
  }

  lemma TruncateStands(lit: Value -> string, tables: seq<FullSyncTable>, i: nat)
    requires i < |tables|
    ensures var stmts, n := ChSync.FullSyncProgram(lit, tables), |tables|;
            |stmts| >= 2 * n && stmts[2 * n - 1 - i] == Ch.Truncate(tables[i].name)
  {
    var stmts, n := ChSync.FullSyncProgram(lit, tables), |tables|;
    ProgramParts(lit, tables);
    TruncateAt(tables, i);
    assert stmts[n..2 * n][n - 1 - i] == stmts[2 * n - 1 - i];
  }

  lemma NoOtherTruncates(lit: Value -> string, tables: seq<FullSyncTable>)
    ensures var stmts, n := ChSync.FullSyncProgram(lit, tables), |tables|;
            |stmts| >= 2 * n && forall j :: 0 <= j < |stmts| && stmts[j].Truncate? ==> n <= j < 2 * n
  {
    var stmts, n := ChSync.FullSyncProgram(lit, tables), |tables|;
    ProgramParts(lit, tables);
    forall j | 0 <= j < |stmts| && stmts[j].Truncate? ensures n <= j < 2 * n {
      if j < n {
        assert stmts[..n][j] == stmts[j];
        OthersAreNoTruncates(lit, tables, stmts[j]);
      } else if j >= 2 * n {
        assert stmts[2 * n..][j - 2 * n] == stmts[j];
        OthersAreNoTruncates(lit, tables, stmts[j]);
      }
    }
  }

  lemma SteadyTruncates(lit: Value -> string, tables: seq<FullSyncTable>)
    ensures var stmts := ChSync.FullSyncProgram(lit, tables);
            (forall j :: 0 <= j < |stmts| - 1 ==> (stmts[j].Truncate? ==> ChText.SteadyName(stmts[j].table)))
            <==> forall i :: 0 <= i < |tables| ==> ChText.SteadyName(tables[i].name) || EndsTheProgram(tables, i)
  {
    var stmts, n := ChSync.FullSyncProgram(lit, tables), |tables|;
    ProgramLength(lit, tables);
    NoOtherTruncates(lit, tables);
    forall i | 0 <= i < n ensures stmts[2 * n - 1 - i] == Ch.Truncate(tables[i].name) {
      TruncateStands(lit, tables, i);
    }
    if forall j :: 0 <= j < |stmts| - 1 ==> (stmts[j].Truncate? ==> ChText.SteadyName(stmts[j].table)) {
      forall i | 0 <= i < n ensures ChText.SteadyName(tables[i].name) || EndsTheProgram(tables, i) {
        assert stmts[2 * n - 1 - i] == Ch.Truncate(tables[i].name);
      }
    }
    if forall i :: 0 <= i < n ==> ChText.SteadyName(tables[i].name) || EndsTheProgram(tables, i) {
      forall j | 0 <= j < |stmts| - 1 && stmts[j].Truncate? ensures ChText.SteadyName(stmts[j].table) {
        var i := 2 * n - 1 - j;
        assert stmts[2 * n - 1 - i] == Ch.Truncate(tables[i].name);
      }
    }
  }

  /** The round trip for full syncs on ClickHouse, exactly: every table's name must be one a truncate
      can end in, but for the first table's when the plan holds no row. */
  lemma ClickHouseFullSyncSplits(printer: Printer, tables: seq<FullSyncTable>)
    requires SingleLinePrinter(printer) && tables != [] && forall t :: t in tables ==> CleanTable(t)
    ensures var stmts := ChSync.FullSyncProgram(LiteralOf(ClickHouseSql, printer), tables);
            && stmts != [] && |Split(ChText.SqlText(stmts))| == |stmts|
            && (Split(ChText.SqlText(stmts)) == Terminated(ChText.Bodies(stmts)) <==>
                  forall i :: 0 <= i < |tables| ==> ChText.SteadyName(tables[i].name) || EndsTheProgram(tables, i))
  {
    var stmts := ChSync.FullSyncProgram(LiteralOf(ClickHouseSql, printer), tables);
    assert ChSync.Creates(tables[|tables| - 1]) != [];
    forall i | 0 <= i < |stmts| ensures ChText.Clean(stmts[i]) { ChSyncIsClean(printer, tables, stmts[i]); }
    ChText.TextSplitsExactlyWhenSteady(stmts);
    SteadyTruncates(LiteralOf(ClickHouseSql, printer), tables);
  }

  /** A name that breaks the trip: the truncate of "events;" loses the semicolon of its name, whatever
      columns, key and rows the tables have. */
  lemma TruncateNameCanBreak(printer: Printer, users: FullSyncTable, events: FullSyncTable)
    requires SingleLinePrinter(printer) && CleanTable(users) && CleanTable(events)
    requires users.name == "users" && events.name == "events;"
    ensures var stmts := ChSync.FullSyncProgram(LiteralOf(ClickHouseSql, printer), [users, events]);
            Split(ChText.SqlText(stmts)) != Terminated(ChText.Bodies(stmts))
  {
    var tables := [users, events];
    assert tables[1].name[6] == ';' && !ChText.SteadyName(tables[1].name);
    ClickHouseFullSyncSplits(printer, tables);
  }
}
