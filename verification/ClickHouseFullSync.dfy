/** Full sync on ClickHouse: create, truncate, insert every planned row. */
module ClickHouseFullSync {
  import opened Common
  import opened Plans
  import opened Programs
  import opened Dedup
  import opened ClickHouse
  import opened ClickHouseExport

  function Creates(t: FullSyncTable): seq<Statement> {
    [Create(t.name, t.columns)]
  }

  function Truncates(t: FullSyncTable): seq<Statement> {
    [Truncate(t.name)]
  }

  function TableInserts(lit: Value -> string): FullSyncTable -> seq<Statement> {
    (t: FullSyncTable) => Inserts(t.name, PrintedAll(lit, t.rows))
  }

  function FullSyncProgram(lit: Value -> string, tables: seq<FullSyncTable>): seq<Statement> {
    Flat(tables, Creates) + Flat(Reversed(tables), Truncates) + Flat(tables, TableInserts(lit))
  }

  method RenderTruncates(tables: seq<FullSyncTable>) returns (lines: seq<Statement>)
    ensures lines == Flat(Reversed(tables), Truncates)
  {
    lines := [];
    ghost var back := Reversed(tables);
    for i := |tables| downto 0
      invariant lines == Flat(back[..|tables| - i], Truncates)
    {
      assert back[..|tables| - i][..|tables| - i - 1] == back[..|tables| - i - 1];
      lines := lines + [Truncate(tables[i].name)];
    }
    assert back[..|tables|] == back;
  }

  method ExportFullSync(lit: Value -> string, tables: seq<FullSyncTable>) returns (lines: seq<Statement>)
    ensures lines == FullSyncProgram(lit, tables)
  {
    lines := [];
    for i := 0 to |tables|
      invariant lines == Flat(tables[..i], Creates)
    {
      assert tables[..i + 1][..i] == tables[..i];
      lines := lines + [Create(tables[i].name, tables[i].columns)];
    }
    assert tables[..|tables|] == tables;
    var truncates := RenderTruncates(tables);
    lines := lines + truncates;
    ghost var start := lines;
    for i := 0 to |tables|
      invariant lines == start + Flat(tables[..i], TableInserts(lit))
    {
      assert tables[..i + 1][..i] == tables[..i];
      var inserts := RenderInserts(tables[i].name, PrintedAll(lit, tables[i].rows));
      lines := lines + inserts;
    }
    assert tables[..|tables|] == tables;
  }

  ghost predicate DistinctNames(tables: seq<FullSyncTable>) {
    forall i, j :: 0 <= i < j < |tables| ==> tables[i].name != tables[j].name
  }

  lemma OwnStatements(lit: Value -> string, tables: seq<FullSyncTable>, i: nat)
    requires DistinctNames(tables) && i < |tables|
    ensures On(TargetOf, FullSyncProgram(lit, tables), tables[i].name)
         == Creates(tables[i]) + Truncates(tables[i]) + TableInserts(lit)(tables[i])
  {
    var name, nameOf, back := tables[i].name, (t: FullSyncTable) => t.name, Reversed(tables);
    assert back[|tables| - 1 - i] == tables[i];
    OnFlat(TargetOf, tables, Creates, nameOf, name);
    OnFlat(TargetOf, back, Truncates, nameOf, name);
    OnFlat(TargetOf, tables, TableInserts(lit), nameOf, name);
    OnConcat(TargetOf, Flat(tables, Creates), Flat(back, Truncates), name);
    OnConcat(TargetOf, Flat(tables, Creates) + Flat(back, Truncates), Flat(tables, TableInserts(lit)), name);
  }

  lemma TruncateThenInsert(t: Table, create: Statement, name: string, rows: seq<LiteralRow>)
    requires create.Create?
    ensures RunTable(Exec, t, [create] + [Truncate(name)] + Inserts(name, rows)) == AllCells(rows)
  {
    var head := [create] + [Truncate(name)];
    RunTableConcat(Exec, t, head, Inserts(name, rows));
    assert head[..1] == [create] && head[..1][..0] == [];
    assert RunTable(Exec, t, head) == [];
    InsertsRun([], name, rows);
    assert [] + AllCells(rows) == AllCells(rows);
  }

  /** Full sync on ClickHouse: whatever a planned table held, it ends as the planned rows. */
  lemma FullSyncReachesSnapshot(lit: Value -> string, tables: seq<FullSyncTable>, db: Database, i: nat)
    requires DistinctNames(tables) && i < |tables|
    ensures TableIn(RunAll(db, FullSyncProgram(lit, tables)), EMPTY, tables[i].name) ==
            AllCells(PrintedAll(lit, tables[i].rows))
  {
    var t, table := TableIn(db, EMPTY, tables[i].name), tables[i];
    OwnStatements(lit, tables, i);
    Locality(Exec, TargetOf, EMPTY, db, FullSyncProgram(lit, tables), table.name);
    TruncateThenInsert(t, Creates(table)[0], table.name, PrintedAll(lit, table.rows));
  }

  /** Tables outside the plan are as before. */
  lemma FullSyncLeavesOthers(lit: Value -> string, tables: seq<FullSyncTable>, db: Database, name: string)
    requires DistinctNames(tables) && forall t :: t in tables ==> t.name != name
    ensures TableIn(RunAll(db, FullSyncProgram(lit, tables)), EMPTY, name) == TableIn(db, EMPTY, name)
  {
    var nameOf, back := (t: FullSyncTable) => t.name, Reversed(tables);
    assert forall i :: 0 <= i < |back| ==> back[i] in tables;
    OnFlat(TargetOf, tables, Creates, nameOf, name);
    OnFlat(TargetOf, back, Truncates, nameOf, name);
    OnFlat(TargetOf, tables, TableInserts(lit), nameOf, name);
    OnConcat(TargetOf, Flat(tables, Creates), Flat(back, Truncates), name);
    OnConcat(TargetOf, Flat(tables, Creates) + Flat(back, Truncates), Flat(tables, TableInserts(lit)), name);
    Locality(Exec, TargetOf, EMPTY, db, FullSyncProgram(lit, tables), name);
  }
}
