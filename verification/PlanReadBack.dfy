/** The texts of whole plans and full syncs, split and read piece by piece, are their statements. */
module PlanReadBack {
  import opened Common
  import opened Plans
  import opened Programs
  import opened Literals
  import opened Dedup
  import opened StatementText
  import opened SqlReader
  import opened PlanTexts
  import Pg = Postgres
  import PgExport = PostgresExport
  import PgSync = PostgresFullSync
  import PgText = PostgresText
  import PgReader = PostgresReader
  import PgBack = PostgresReadBack
  import Ch = ClickHouse
  import ChExport = ClickHouseExport
  import ChSync = ClickHouseFullSync
  import ChText = ClickHouseText
  import ChReader = ClickHouseReader
  import ChBack = ClickHouseReadBack

  /** The element types in a row do not look like the end of a literal. */
  predicate SolidRow(stops: string, d: Dialect, row: PlanRow) {
    forall i :: 0 <= i < |row.values| ==> SolidTypes(stops, d, row.values[i])
  }

  lemma PrintedRowIsSolid(stops: string, d: Dialect, printer: Printer, row: PlanRow)
    requires Punctuation(stops) && SolidPrinter(printer) && SolidRow(stops, d, row)
    ensures AllSolid(stops, Printed(LiteralOf(d, printer), row).values)
  {
    forall i | 0 <= i < |row.values| ensures Solid(stops, Printed(LiteralOf(d, printer), row).values[i]) {
      LiteralIsSolid(stops, d, printer, row.values[i]);
    }
  }

  lemma PrintedRowsAreSolid(stops: string, d: Dialect, printer: Printer, rows: seq<PlanRow>)
    requires Punctuation(stops) && SolidPrinter(printer) && forall r :: r in rows ==> SolidRow(stops, d, r)
    ensures forall r :: r in PrintedAll(LiteralOf(d, printer), rows) ==> AllSolid(stops, r.values)
  {
    forall i | 0 <= i < |rows| ensures AllSolid(stops, PrintedAll(LiteralOf(d, printer), rows)[i].values) {
      PrintedRowIsSolid(stops, d, printer, rows[i]);
    }
  }

  // ---- migration plans on Postgres ----

  predicate PgLegibleOp(op: Op) {
    match op
    case CreateTable(_, columns) => forall i :: 0 <= i < |columns| ==> PgBack.LegibleColumn(columns[i])
    case CreateLinkTable(_, _, _, _, _, _) => true
    case InsertRows(_, rows) => forall r :: r in rows ==> SolidRow(PgReader.STOPS, PostgresSql, r)
  }

  lemma {:induction false} PgExportIsLegible(printer: Printer, pks: map<string, seq<string>>, ops: seq<Op>)
    requires SolidPrinter(printer) && forall i :: 0 <= i < |ops| ==> CleanOp(ops[i]) && PgLegibleOp(ops[i])
    ensures forall s :: s in PgExport.Exported(PgText.Printing(printer), pks, ops).lines ==> PgBack.Legible(s)
    decreases |ops|
  {
    if ops != [] {
      var front, op, lit := ops[..|ops| - 1], ops[|ops| - 1], PgText.Printing(printer);
      PgExportIsLegible(printer, pks, front);
      if op.InsertRows? {
        var e, printed := PgExport.Exported(lit, pks, front), PrintedAll(lit, op.rows);
        PrintedRowsAreSolid(PgReader.STOPS, PostgresSql, printer, op.rows);
        KeptAreRows(op.table, printed, PkFor(pks, op.table), SeenIn(e.seen, op.table));
      }
    }
  }

  /** The text of a migration plan, split and read piece by piece, is its program. */
  lemma PostgresPlanReads(printer: Printer, plan: seq<Op>)
    requires SingleLinePrinter(printer) && SolidPrinter(printer)
    requires forall i :: 0 <= i < |plan| ==> CleanOp(plan[i]) && PgLegibleOp(plan[i])
    ensures var stmts := PgExport.Program(PgText.Printing(printer), plan);
            var pieces := Split(PgText.SqlText(stmts));
            stmts != [] ==>
              |pieces| == |stmts| &&
              forall i :: 0 <= i < |stmts| ==> PgReader.ReadStatement(pieces[i]) == Some(PgBack.Shown(stmts[i]))
  {
    var stmts := PgExport.Program(PgText.Printing(printer), plan);
    var pks := PgExport.PrimaryKeysOf(plan);
    forall t ensures CleanNames(PkFor(pks, t)) { PgText.PrimaryKeysAreClean(plan, t); }
    PgText.ExportIsClean(printer, pks, plan);
    PgExportIsLegible(printer, pks, plan);
    if stmts != [] {
      assert forall i :: 0 <= i < |stmts| ==> stmts[i] in stmts;
      PgBack.TextSaysItsStatements(stmts);
    }
  }

  // ---- full syncs on Postgres ----

  predicate PgLegibleTable(t: FullSyncTable) {
    && (forall i :: 0 <= i < |t.columns| ==> PgBack.LegibleColumn(t.columns[i]))
    && forall r :: r in t.rows ==> SolidRow(PgReader.STOPS, PostgresSql, r)
  }

  lemma ConditionIsLegible(row: LiteralRow, pk: seq<string>)
    requires AllSolid(PgReader.STOPS, row.values)
    ensures PgBack.LegibleRow(PgSync.Condition(row, pk))
  {
    PgSync.PresentKeysAre(row, pk);
    var keys := PgSync.PresentKeys(row, pk);
    forall i | 0 <= i < |keys| ensures Solid(PgReader.STOPS, KeyOf(row, keys)[i]) { assert Carries(row, keys[i]); }
  }

  lemma {:induction false} ConditionsAreLegible(rows: seq<LiteralRow>, pk: seq<string>)
    requires forall r :: r in rows ==> AllSolid(PgReader.STOPS, r.values)
    ensures forall r :: r in PgSync.Conditions(rows, pk) ==> PgBack.LegibleRow(r)
    decreases |rows|
  {
    if rows != [] {
      ConditionsAreLegible(rows[..|rows| - 1], pk);
      ConditionIsLegible(rows[|rows| - 1], pk);
    }
  }

  lemma PgStatementIsLegible(printer: Printer, t: FullSyncTable, s: Pg.Statement)
    requires SolidPrinter(printer) && PgLegibleTable(t)
    requires var lit := LiteralOf(PostgresSql, printer);
             s in PgSync.Creates(t) || s in PgSync.TableUpserts(lit)(t) || s in PgSync.Deletes(lit)(t)
    ensures PgBack.Legible(s)
  {
    var printed := PrintedAll(LiteralOf(PostgresSql, printer), t.rows);
    PrintedRowsAreSolid(PgReader.STOPS, PostgresSql, printer, t.rows);
    ConditionsAreLegible(printed, t.primaryKey);
  }

  lemma PgSyncIsLegible(printer: Printer, tables: seq<FullSyncTable>, s: Pg.Statement)
    requires SolidPrinter(printer) && forall t :: t in tables ==> PgLegibleTable(t)
    requires s in PgSync.FullSyncProgram(LiteralOf(PostgresSql, printer), tables)
    ensures PgBack.Legible(s)
  {
    var lit := LiteralOf(PostgresSql, printer);
    if s in Flat(tables, PgSync.Creates) {
      FlatMembers(tables, PgSync.Creates, s);
      var t :| t in tables && s in PgSync.Creates(t);
      PgStatementIsLegible(printer, t, s);
    } else if s in Flat(tables, PgSync.TableUpserts(lit)) {
      FlatMembers(tables, PgSync.TableUpserts(lit), s);
      var t :| t in tables && s in PgSync.TableUpserts(lit)(t);
      PgStatementIsLegible(printer, t, s);
    } else {
      FlatMembers(Reversed(tables), PgSync.Deletes(lit), s);
      var t :| t in Reversed(tables) && s in PgSync.Deletes(lit)(t);
      PgStatementIsLegible(printer, t, s);
    }
  }

  /** The text of a full sync, split and read piece by piece, is its program: what is upserted, and
      that the rows to keep are the ones that are kept. */
  lemma PostgresFullSyncReads(printer: Printer, tables: seq<FullSyncTable>)
    requires SingleLinePrinter(printer) && SolidPrinter(printer) && tables != []
    requires forall t :: t in tables ==> CleanTable(t) && PgLegibleTable(t)
    ensures var stmts := PgSync.FullSyncProgram(LiteralOf(PostgresSql, printer), tables);
            var pieces := Split(PgText.SqlText(stmts));
            |pieces| == |stmts| &&
            forall i :: 0 <= i < |stmts| ==> PgReader.ReadStatement(pieces[i]) == Some(PgBack.Shown(stmts[i]))
  {
    var stmts := PgSync.FullSyncProgram(LiteralOf(PostgresSql, printer), tables);
    assert PgSync.Creates(tables[|tables| - 1]) != [];
    forall i | 0 <= i < |stmts| ensures PgText.Clean(stmts[i]) && PgBack.Legible(stmts[i]) {
      PgSyncIsClean(printer, tables, stmts[i]);
      PgSyncIsLegible(printer, tables, stmts[i]);
    }
    PgBack.TextSaysItsStatements(stmts);
  }

  // ---- ClickHouse ----

  predicate ChLegibleRow(row: PlanRow) {
    AllSolid(ChReader.STOPS, row.columns)
  }

  predicate ChLegibleOp(op: Op) {
    ChBack.LegibleName(op.table) &&
    match op
    case CreateTable(_, columns) => forall i :: 0 <= i < |columns| ==> ChBack.LegibleName(columns[i].name)
    case CreateLinkTable(_, lc, _, rc, _, linkKey) =>
      ChBack.LegibleName(lc) && ChBack.LegibleName(rc) && ChBack.LegibleNames(linkKey)
    case InsertRows(_, rows) => forall r :: r in rows ==> ChLegibleRow(r)
  }

  predicate SolidPrinted(row: LiteralRow) {
    AllSolid(ChReader.STOPS, row.columns) && AllSolid(ChReader.STOPS, row.values)
  }

  lemma ChPrintedRowsAreSolid(printer: Printer, rows: seq<PlanRow>)
    requires SolidPrinter(printer) && forall r :: r in rows ==> ChLegibleRow(r)
    ensures forall r :: r in PrintedAll(LiteralOf(ClickHouseSql, printer), rows) ==> SolidPrinted(r)
  {
    PrintedRowsAreSolid(ChReader.STOPS, ClickHouseSql, printer, rows);
    forall i | 0 <= i < |rows| ensures SolidPrinted(PrintedAll(LiteralOf(ClickHouseSql, printer), rows)[i]) {
      assert ChLegibleRow(rows[i]);
      assert PrintedAll(LiteralOf(ClickHouseSql, printer), rows)[i] in
             PrintedAll(LiteralOf(ClickHouseSql, printer), rows);
    }
  }

  lemma {:induction false} ChKeysAreSolid(plan: seq<Op>, t: string)
    requires forall i :: 0 <= i < |plan| ==> ChLegibleOp(plan[i])
    ensures AllSolid(ChReader.STOPS, PkFor(ChExport.PrimaryKeysOf(plan), t))
    decreases |plan|
  {
    if plan != [] {
      var front, op := plan[..|plan| - 1], plan[|plan| - 1];
      ChKeysAreSolid(front, t);
      assert ChLegibleOp(op);
      if op.CreateTable? {
        ChBack.KeyColumnsAreLegible(op.columns);
      }
    }
  }

  lemma {:induction false} ConditionedAreSolid(rows: seq<LiteralRow>, pk: seq<string>)
    requires forall r :: r in rows ==> SolidPrinted(r)
    ensures forall r :: r in ChExport.Conditioned(rows, pk) ==> SolidPrinted(r)
    decreases |rows|
  {
    if rows != [] {
      ConditionedAreSolid(rows[..|rows| - 1], pk);
    }
  }

  lemma InsertsAreLegible(table: string, rows: seq<LiteralRow>)
    requires ChBack.LegibleName(table) && forall r :: r in rows ==> SolidPrinted(r)
    ensures forall s :: s in Ch.Inserts(table, rows) ==> ChBack.Legible(s)
  {
    forall s | s in Ch.Inserts(table, rows) ensures ChBack.Legible(s) {
      var i :| 0 <= i < |rows| && s == Ch.Insert(table, rows[i]);
      assert SolidPrinted(rows[i]);
    }
  }

  lemma DeleteIsLegible(table: string, pk: seq<string>, rows: seq<LiteralRow>)
    requires ChBack.LegibleName(table) && AllSolid(ChReader.STOPS, pk)
    requires rows != [] && forall r :: r in rows ==> SolidPrinted(r)
    ensures ChBack.Legible(Ch.DeleteWhere(table, pk, rows))
  {
    forall i | 0 <= i < |rows| ensures AllSolid(ChReader.STOPS, rows[i].values) { assert SolidPrinted(rows[i]); }
  }

  lemma ChunkIsLegible(table: string, pk: seq<string>, rows: seq<LiteralRow>)
    requires ChBack.LegibleName(table) && AllSolid(ChReader.STOPS, pk) && forall r :: r in rows ==> SolidPrinted(r)
    ensures forall s :: s in ChExport.Chunk(table, pk, rows) ==> ChBack.Legible(s)
  {
    ConditionedAreSolid(rows, pk);
    InsertsAreLegible(table, rows);
    if ChExport.Conditioned(rows, pk) != [] {
      DeleteIsLegible(table, pk, ChExport.Conditioned(rows, pk));
    }
  }

  lemma {:induction false} ChExportIsLegible(printer: Printer, pks: map<string, seq<string>>, ops: seq<Op>)
    requires SolidPrinter(printer) && (forall t :: AllSolid(ChReader.STOPS, PkFor(pks, t)))
    requires forall i :: 0 <= i < |ops| ==> ChLegibleOp(ops[i])
    ensures forall s ::
              s in ChExport.Exported(LiteralOf(ClickHouseSql, printer), pks, ops).lines ==> ChBack.Legible(s)
    decreases |ops|
  {
    if ops != [] {
      var front, op, lit := ops[..|ops| - 1], ops[|ops| - 1], LiteralOf(ClickHouseSql, printer);
      ChExportIsLegible(printer, pks, front);
      if op.InsertRows? {
        var e, printed, pk := ChExport.Exported(lit, pks, front), PrintedAll(lit, op.rows), PkFor(pks, op.table);
        ChPrintedRowsAreSolid(printer, op.rows);
        KeptAreRows(op.table, printed, pk, SeenIn(e.seen, op.table));
        ChunkIsLegible(op.table, pk, Deduplicate(op.table, printed, pk, SeenIn(e.seen, op.table)).rows);
      }
    }
  }

  /** The text of a migration plan on ClickHouse, split and read piece by piece, is its program. */
  lemma ClickHousePlanReads(printer: Printer, plan: seq<Op>)
    requires SingleLinePrinter(printer) && SolidPrinter(printer)
    requires forall i :: 0 <= i < |plan| ==> CleanOp(plan[i]) && ChLegibleOp(plan[i])
    ensures var stmts := ChExport.Program(LiteralOf(ClickHouseSql, printer), plan);
            var pieces := Split(ChText.SqlText(stmts));
            stmts != [] ==>
              |pieces| == |stmts| &&
              forall i :: 0 <= i < |stmts| ==> ChReader.ReadStatement(pieces[i]) == Some(ChBack.Says(stmts[i]))
  {
    var stmts := ChExport.Program(LiteralOf(ClickHouseSql, printer), plan);
    var pks := ChExport.PrimaryKeysOf(plan);
    forall t ensures CleanNames(PkFor(pks, t)) { PrimaryKeysAreClean(plan, t); }
    forall t ensures AllSolid(ChReader.STOPS, PkFor(pks, t)) { ChKeysAreSolid(plan, t); }
    ExportIsClean(printer, pks, plan);
    ChExportIsLegible(printer, pks, plan);
    if stmts != [] {
      assert forall i :: 0 <= i < |stmts| ==> stmts[i] in stmts;
      ChBack.TextSaysItsStatements(stmts);
    }
  }

  predicate ChLegibleTable(t: FullSyncTable) {
    && ChBack.LegibleName(t.name) && (forall i :: 0 <= i < |t.columns| ==> ChBack.LegibleName(t.columns[i].name))
    && forall r :: r in t.rows ==> ChLegibleRow(r)
  }

  lemma ChSyncIsLegible(printer: Printer, tables: seq<FullSyncTable>, s: Ch.Statement)
    requires SolidPrinter(printer) && forall t :: t in tables ==> ChLegibleTable(t)
    requires s in ChSync.FullSyncProgram(LiteralOf(ClickHouseSql, printer), tables)
    ensures ChBack.Legible(s)
  {
    var lit := LiteralOf(ClickHouseSql, printer);
    if s in Flat(tables, ChSync.Creates) {
      FlatMembers(tables, ChSync.Creates, s);
    } else if s in Flat(Reversed(tables), ChSync.Truncates) {
      FlatMembers(Reversed(tables), ChSync.Truncates, s);
    } else {
      FlatMembers(tables, ChSync.TableInserts(lit), s);
      var t :| t in tables && s in ChSync.TableInserts(lit)(t);
      ChPrintedRowsAreSolid(printer, t.rows);
      InsertsAreLegible(t.name, PrintedAll(lit, t.rows));
    }
  }

  /** The text of a full sync on ClickHouse, split and read piece by piece, is its program. */
  lemma ClickHouseFullSyncReads(printer: Printer, tables: seq<FullSyncTable>)
    requires SingleLinePrinter(printer) && SolidPrinter(printer) && tables != []
    requires forall t :: t in tables ==> CleanTable(t) && ChLegibleTable(t)
    requires forall i :: 0 <= i < |tables| ==> ChText.SteadyName(tables[i].name) || EndsTheProgram(tables, i)
    ensures var stmts := ChSync.FullSyncProgram(LiteralOf(ClickHouseSql, printer), tables);
            var pieces := Split(ChText.SqlText(stmts));
            |pieces| == |stmts| &&
            forall i :: 0 <= i < |stmts| ==> ChReader.ReadStatement(pieces[i]) == Some(ChBack.Says(stmts[i]))
  {
    var stmts := ChSync.FullSyncProgram(LiteralOf(ClickHouseSql, printer), tables);
    assert ChSync.Creates(tables[|tables| - 1]) != [];
    forall i | 0 <= i < |stmts| ensures ChText.Clean(stmts[i]) && ChBack.Legible(stmts[i]) {
      ChSyncIsClean(printer, tables, stmts[i]);
      ChSyncIsLegible(printer, tables, stmts[i]);
    }
    SteadyTruncates(LiteralOf(ClickHouseSql, printer), tables);
    ChBack.TextSaysItsStatements(stmts);
  }
}
