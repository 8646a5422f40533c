/** Full sync on Postgres: create, upsert every planned row, delete what the plan does not hold. */
module PostgresFullSync {
  import opened Common
  import opened Plans
  import opened Programs
  import opened Dedup
  import opened Postgres
  import opened PostgresExport

  function PresentKeys(row: LiteralRow, pk: seq<string>): seq<string> {
    if pk == [] then []
    else
      var front, last := PresentKeys(row, pk[..|pk| - 1]), pk[|pk| - 1];
      if Carries(row, last) then front + [last] else front
  }

  lemma {:induction false} PresentKeysAre(row: LiteralRow, pk: seq<string>)
    ensures forall c :: c in PresentKeys(row, pk) ==> c in pk && Carries(row, c)
    ensures CarriesAll(row, PresentKeys(row, pk))
    decreases |pk|
  {
    if pk != [] {
      PresentKeysAre(row, pk[..|pk| - 1]);
    }
  }

  lemma {:induction false} AllKeysPresent(row: LiteralRow, pk: seq<string>)
    requires CarriesAll(row, pk)
    ensures PresentKeys(row, pk) == pk
    decreases |pk|
  {
    if pk != [] {
      var front := pk[..|pk| - 1];
      assert Carries(row, pk[|pk| - 1]);
      assert CarriesAll(row, front) by {
        forall i | 0 <= i < |front| ensures Carries(row, front[i]) { assert front[i] == pk[i] && Carries(row, pk[i]); }
      }
      AllKeysPresent(row, front);
    }
  }

  /** The conjunction that spares a row: its key columns, as far as it has them. */
  function Condition(row: LiteralRow, pk: seq<string>): LiteralRow {
    PresentKeysAre(row, pk);
    InsertRow(PresentKeys(row, pk), KeyOf(row, PresentKeys(row, pk)))
  }

  function Conditions(rows: seq<LiteralRow>, pk: seq<string>): seq<LiteralRow> {
    if rows == [] then []
    else
      var front, c := Conditions(rows[..|rows| - 1], pk), Condition(rows[|rows| - 1], pk);
      if c.columns == [] then front else front + [c]
  }

  /** A planned row gives some key column a value that differs from the stored one. */
  predicate TellsApart(stored: Row, r: LiteralRow, pk: seq<string>) {
    exists c :: c in pk && Carries(r, c) && Differs(At(stored, c), Field(r, c))
  }

  lemma {:induction false} PresentKeysHold(row: LiteralRow, pk: seq<string>, c: string)
    requires c in pk && Carries(row, c)
    ensures c in PresentKeys(row, pk)
    decreases |pk|
  {
    if c != pk[|pk| - 1] {
      assert c in pk[..|pk| - 1];
      PresentKeysHold(row, pk[..|pk| - 1], c);
    }
  }

  lemma {:induction false} FieldOfKeys(row: LiteralRow, keys: seq<string>, c: string)
    requires CarriesAll(row, keys) && c in keys
    ensures Carries(InsertRow(keys, KeyOf(row, keys)), c)
    ensures Field(InsertRow(keys, KeyOf(row, keys)), c) == Field(row, c)
  {
    var i := IndexOf(keys, c);
    assert keys[i] == c;
  }

  /** The conjunction of a row is false of a stored one exactly when they differ in a key column. */
  lemma ConditionTellsApart(stored: Row, row: LiteralRow, pk: seq<string>)
    ensures var k := Condition(row, pk);
            (exists c :: c in k.columns && Carries(k, c) && Differs(At(stored, c), Field(k, c))) <==>
            TellsApart(stored, row, pk)
  {
    PresentKeysAre(row, pk);
    var k := Condition(row, pk);
    if c :| c in k.columns && Carries(k, c) && Differs(At(stored, c), Field(k, c)) {
      FieldOfKeys(row, k.columns, c);
    }
    if TellsApart(stored, row, pk) {
      var c :| c in pk && Carries(row, c) && Differs(At(stored, c), Field(row, c));
      PresentKeysHold(row, pk, c);
      FieldOfKeys(row, k.columns, c);
    }
  }

  /** What the delete clause means: a stored row goes exactly when each planned row that gives some key
      column a value gives one that differs. */
  lemma {:induction false} GoesExactlyWhen(stored: Row, rows: seq<LiteralRow>, pk: seq<string>)
    ensures Deleted(stored, Conditions(rows, pk)) <==>
            forall r :: r in rows && (exists c :: c in pk && Carries(r, c)) ==> TellsApart(stored, r, pk)
    decreases |rows|
  {
    if rows != [] {
      var front, row := rows[..|rows| - 1], rows[|rows| - 1];
      GoesExactlyWhen(stored, front, pk);
      assert rows == front + [row];
      ConditionTellsApart(stored, row, pk);
      HasCondition(row, pk);
      OneMoreCondition(stored, Conditions(front, pk), Condition(row, pk));
    }
  }

  lemma HasCondition(row: LiteralRow, pk: seq<string>)
    ensures Condition(row, pk).columns != [] <==> exists c :: c in pk && Carries(row, c)
  {
    PresentKeysAre(row, pk);
    if c :| c in pk && Carries(row, c) {
      PresentKeysHold(row, pk, c);
    }
    if Condition(row, pk).columns != [] {
      assert Condition(row, pk).columns[0] in PresentKeys(row, pk);
    }
  }

  lemma OneMoreCondition(stored: Row, keep: seq<LiteralRow>, k: LiteralRow)
    ensures Deleted(stored, keep + [k]) <==>
            Deleted(stored, keep) &&
            exists c :: c in k.columns && Carries(k, c) && Differs(At(stored, c), Field(k, c))
  {
    assert k in keep + [k];
    assert forall x :: x in keep ==> x in keep + [k];
  }

  function Creates(t: FullSyncTable): seq<Statement> {
    [Create(t.name, t.columns)]
  }

  function TableUpserts(lit: Value -> string): FullSyncTable -> seq<Statement> {
    (t: FullSyncTable) => Upserts(t.name, t.primaryKey, PrintedAll(lit, t.rows))
  }

  function Deletes(lit: Value -> string): FullSyncTable -> seq<Statement> {
    (t: FullSyncTable) => [DeleteExcept(t.name, Conditions(PrintedAll(lit, t.rows), t.primaryKey))]
  }

  function FullSyncProgram(lit: Value -> string, tables: seq<FullSyncTable>): seq<Statement> {
    Flat(tables, Creates) + Flat(tables, TableUpserts(lit)) + Flat(Reversed(tables), Deletes(lit))
  }

  method RenderCondition(row: LiteralRow, pk: seq<string>) returns (c: LiteralRow)
    ensures c == Condition(row, pk)
  {
    var columns: seq<string> := [];
    var literals: seq<string> := [];
    for j := 0 to |pk|
      invariant columns == PresentKeys(row, pk[..j])
      invariant CarriesAll(row, columns) && literals == KeyOf(row, columns)
    {
      assert pk[..j + 1][..j] == pk[..j];
      if Carries(row, pk[j]) {
        columns, literals := columns + [pk[j]], literals + [Field(row, pk[j])];
      }
    }
    assert pk[..|pk|] == pk;
    c := InsertRow(columns, literals);
  }

  method RenderDelete(lit: Value -> string, t: FullSyncTable) returns (line: Statement)
    ensures [line] == Deletes(lit)(t)
  {
    var rows := PrintedAll(lit, t.rows);
    var clauses: seq<LiteralRow> := [];
    for i := 0 to |rows|
      invariant clauses == Conditions(rows[..i], t.primaryKey)
    {
      assert rows[..i + 1][..i] == rows[..i];
      var clause := RenderCondition(rows[i], t.primaryKey);
      if clause.columns != [] {
        clauses := clauses + [clause];
      }
    }
    assert rows[..|rows|] == rows;
    line := DeleteExcept(t.name, clauses);
  }

  method RenderDeletes(lit: Value -> string, tables: seq<FullSyncTable>) returns (lines: seq<Statement>)
    ensures lines == Flat(Reversed(tables), Deletes(lit))
  {
    lines := [];
    ghost var back := Reversed(tables);
    for i := |tables| downto 0
      invariant lines == Flat(back[..|tables| - i], Deletes(lit))
    {
      assert back[..|tables| - i][..|tables| - i - 1] == back[..|tables| - i - 1];
      var line := RenderDelete(lit, tables[i]);
      lines := lines + [line];
    }
    assert back[..|tables|] == back;
  }

  method ExportFullSync(lit: Value -> string, tables: seq<FullSyncTable>) returns (lines: seq<Statement>)
    ensures lines == FullSyncProgram(lit, tables)
  {
    lines := [];
    for i := 0 to |tables|
      invariant lines == Flat(tables[..i], Creates)
    {
      assert tables[..i + 1][..i] == tables[..i];
      lines := lines + [Create(tables[i].name, tables[i].columns)];
    }
    assert tables[..|tables|] == tables;
    for i := 0 to |tables|
      invariant lines == Flat(tables, Creates) + Flat(tables[..i], TableUpserts(lit))
    {
      assert tables[..i + 1][..i] == tables[..i];
      lines := lines + Upserts(tables[i].name, tables[i].primaryKey, PrintedAll(lit, tables[i].rows));
    }
    assert tables[..|tables|] == tables;
    var deletes := RenderDeletes(lit, tables);
    lines := lines + deletes;
  }

  // ---- the snapshot it leaves ----

  function ColumnSet(t: FullSyncTable): set<string> {
    set i | 0 <= i < |t.columns| :: t.columns[i].name
  }

  /** A stored row that sits under its own key. */
  predicate Fits(k: seq<string>, row: Row, columns: set<string>, pk: seq<string>) {
    && row.Keys == columns && |k| == |pk| && NULL !in k
    && forall i :: 0 <= i < |pk| ==> pk[i] in row && row[pk[i]] == k[i]
  }

  /** An existing table of the planned shape, whatever rows it holds. */
  predicate Conforms(t: Table, columns: set<string>, pk: seq<string>) {
    t.loose == [] && forall k :: k in t.keyed ==> Fits(k, t.keyed[k], columns, pk)
  }

  /** Key to row, as planned; a later row under a key replaces an earlier one. */
  function Snapshot(rows: seq<LiteralRow>, pk: seq<string>): map<seq<string>, Row> {
    if rows == [] then map[]
       else Snapshot(rows[..|rows| - 1], pk)[RowKey(rows[|rows| - 1], pk) := Cells(rows[|rows| - 1])]
  }

  lemma CellsFit(row: LiteralRow, columns: set<string>, pk: seq<string>)
    requires Complete(row, columns, pk)
    ensures Fits(RowKey(row, pk), Cells(row), columns, pk)
  {
    assert forall c :: c in row.columns ==> Carries(row, c);
    forall i | 0 <= i < |pk| ensures pk[i] in Cells(row) && Cells(row)[pk[i]] == RowKey(row, pk)[i] {
      assert Carries(row, pk[i]);
    }
  }

  lemma CompletePut(t: Table, columns: set<string>, pk: seq<string>, row: LiteralRow)
    requires Conforms(t, columns, pk) && Complete(row, columns, pk)
    ensures Put(t, pk, row) == t.(keyed := t.keyed[RowKey(row, pk) := Cells(row)])
    ensures Conforms(Put(t, pk, row), columns, pk)
  {
    CellsFit(row, columns, pk);
    var k := RowKey(row, pk);
    if k in t.keyed {
      SameKeyColumns(k, t.keyed[k], row, columns, pk);
    }
  }

  lemma SameKeyColumns(k: seq<string>, stored: Row, row: LiteralRow, columns: set<string>, pk: seq<string>)
    requires Complete(row, columns, pk) && k == RowKey(row, pk) && Fits(k, stored, columns, pk)
    ensures stored + Updates(row, pk) == Cells(row)
  {
    var cells, updates := Cells(row), Updates(row, pk);
    assert forall c :: c in row.columns ==> Carries(row, c);
    forall c | c in columns ensures (stored + updates)[c] == cells[c] {
      if c in pk {
        var i := IndexOf(pk, c);
        assert Carries(row, pk[i]) && k[i] == Field(row, c);
      }
    }
    assert updates.Keys <= cells.Keys == columns;
  }

  lemma UpdateAfterOverlay(a: map<seq<string>, Row>, b: map<seq<string>, Row>, k: seq<string>, v: Row)
    ensures (a + b)[k := v] == a + b[k := v]
  {
  }

  lemma {:induction false} PutAllReplaces(t: Table, columns: set<string>, pk: seq<string>, rows: seq<LiteralRow>)
    requires Conforms(t, columns, pk) && AllComplete(rows, columns, pk)
    ensures PutAll(t, pk, rows) == t.(keyed := t.keyed + Snapshot(rows, pk))
    ensures Conforms(PutAll(t, pk, rows), columns, pk)
    decreases |rows|
  {
    if rows == [] {
      assert t.keyed + map[] == t.keyed;
    } else {
      var front, last := rows[..|rows| - 1], rows[|rows| - 1];
      PutAllReplaces(t, columns, pk, front);
      CompletePut(PutAll(t, pk, front), columns, pk, last);
      UpdateAfterOverlay(t.keyed, Snapshot(front, pk), RowKey(last, pk), Cells(last));
    }
  }

  lemma {:induction false} SnapshotKeys(rows: seq<LiteralRow>, pk: seq<string>)
    ensures Snapshot(rows, pk).Keys == Keys(rows, pk)
    decreases |rows|
  {
    if rows != [] {
      var front, last := rows[..|rows| - 1], rows[|rows| - 1];
      assert rows == front + [last];
      SnapshotKeys(front, pk);
      KeysExtend(front, pk, last);
    }
  }

  lemma {:induction false} ConditionsAre(rows: seq<LiteralRow>, pk: seq<string>)
    requires Keyed(rows, pk)
    ensures forall c :: c in Conditions(rows, pk) <==> exists r :: r in rows && c == InsertRow(pk, RowKey(r, pk))
    decreases |rows|
  {
    if rows != [] {
      var front, last := rows[..|rows| - 1], rows[|rows| - 1];
      assert rows == front + [last];
      assert last in rows;
      ConditionsAre(front, pk);
      AllKeysPresent(last, pk);
      assert Condition(last, pk) == InsertRow(pk, RowKey(last, pk));
    }
  }

  /** The delete spares a stored row exactly when the plan has a row under its key. */
  lemma DeletedUnlessPlanned(k: seq<string>, stored: Row, columns: set<string>, pk: seq<string>, rows: seq<LiteralRow>)
    requires Fits(k, stored, columns, pk) && Keyed(rows, pk)
    ensures Deleted(stored, Conditions(rows, pk)) <==> k !in Keys(rows, pk)
  {
    ConditionsAre(rows, pk);
    if k in Keys(rows, pk) {
      var r :| r in rows && RowKey(r, pk) == k;
      var c := InsertRow(pk, k);
      assert c in Conditions(rows, pk);
      forall x | x in pk && Carries(c, x) ensures !Differs(At(stored, x), Field(c, x)) {
        var i := IndexOf(pk, x);
        assert pk[i] in stored && stored[pk[i]] == k[i];
      }
    } else {
      forall c | c in Conditions(rows, pk)
        ensures exists x :: x in c.columns && Carries(c, x) && Differs(At(stored, x), Field(c, x))
      {
        var r :| r in rows && c == InsertRow(pk, RowKey(r, pk));
        KeysDiffer(k, stored, columns, pk, r);
      }
    }
  }

  lemma KeysDiffer(k: seq<string>, stored: Row, columns: set<string>, pk: seq<string>, r: LiteralRow)
    requires Fits(k, stored, columns, pk) && KeyedRow(r, pk) && RowKey(r, pk) != k
    ensures var c := InsertRow(pk, RowKey(r, pk));
            exists x :: x in c.columns && Carries(c, x) && Differs(At(stored, x), Field(c, x))
  {
    var k' := RowKey(r, pk);
    var i :| 0 <= i < |pk| && k[i] != k'[i];
    var c, x := InsertRow(pk, k'), pk[i];
    var j := IndexOf(pk, x);
    assert pk[j] == x && stored[pk[j]] == k[j] && stored[pk[i]] == k[i];
    assert Carries(r, pk[i]) && Carries(r, pk[j]) && k'[i] == Field(r, x) == k'[j];
    assert Differs(At(stored, x), Field(c, x));
  }

  /** The whole program on one table: from any conforming rows to exactly the planned ones. */
  lemma TableSyncs(t: Table, columns: set<string>, pk: seq<string>, rows: seq<LiteralRow>, name: string)
    requires Conforms(t, columns, pk) && AllComplete(rows, columns, pk)
    ensures Exec(PutAll(t, pk, rows), DeleteExcept(name, Conditions(rows, pk))) == Table(Snapshot(rows, pk), [])
  {
    var conditions := Conditions(rows, pk);
    PutAllReplaces(t, columns, pk, rows);
    SnapshotKeys(rows, pk);
    var full := PutAll(t, pk, rows).keyed;
    assert forall k :: k in full ==> Fits(k, full[k], columns, pk);
    forall k | k in full ensures Deleted(full[k], conditions) <==> k !in Snapshot(rows, pk) {
      DeletedUnlessPlanned(k, full[k], columns, pk, rows);
    }
    PlannedRemain(t.keyed, Snapshot(rows, pk), conditions);
  }

  lemma PlannedRemain(before: map<seq<string>, Row>, planned: map<seq<string>, Row>, keep: seq<LiteralRow>)
    requires var full := before + planned;
             forall k :: k in full ==> (Deleted(full[k], keep) <==> k !in planned)
    ensures var full := before + planned;
            (map k | k in full && !Deleted(full[k], keep) :: full[k]) == planned
  {
  }

  /** The plan's tables are pairwise different, and every row is complete and keyed. */
  ghost predicate WellFormed(lit: Value -> string, tables: seq<FullSyncTable>) {
    && (forall i, j :: 0 <= i < j < |tables| ==> tables[i].name != tables[j].name)
    && (forall t :: t in tables ==> AllComplete(PrintedAll(lit, t.rows), ColumnSet(t), t.primaryKey))
  }

  lemma OwnStatements(lit: Value -> string, tables: seq<FullSyncTable>, i: nat)
    requires WellFormed(lit, tables) && i < |tables|
    ensures On(TargetOf, FullSyncProgram(lit, tables), tables[i].name)
         == Creates(tables[i]) + TableUpserts(lit)(tables[i]) + Deletes(lit)(tables[i])
  {
    var name, nameOf := tables[i].name, (t: FullSyncTable) => t.name;
    var back := Reversed(tables);
    assert back[|tables| - 1 - i] == tables[i];
    OnFlat(TargetOf, tables, Creates, nameOf, name);
    OnFlat(TargetOf, tables, TableUpserts(lit), nameOf, name);
    OnFlat(TargetOf, back, Deletes(lit), nameOf, name);
    OnConcat(TargetOf, Flat(tables, Creates), Flat(tables, TableUpserts(lit)), name);
    OnConcat(TargetOf, Flat(tables, Creates) + Flat(tables, TableUpserts(lit)), Flat(back, Deletes(lit)), name);
  }

  lemma UpsertsRun(t: Table, create: Statement, name: string, pk: seq<string>, rows: seq<LiteralRow>)
    requires create.Create?
    ensures RunTable(Exec, t, [create] + Upserts(name, pk, rows)) == PutAll(t, pk, rows)
  {
    var creates := [create];
    RunIsPutAll(t, pk, creates + Upserts(name, pk, rows));
    RowsOfConcat(creates, Upserts(name, pk, rows));
    RowsOfUpserts(name, pk, rows);
    assert RowsOf(creates) == [] by { assert creates[..0] == []; }
    assert [] + rows == rows;
  }

  lemma LastRuns(t: Table, front: seq<Statement>, last: Statement)
    ensures RunTable(Exec, t, front + [last]) == Exec(RunTable(Exec, t, front), last)
  {
    assert (front + [last])[..|front|] == front;
  }

  lemma OthersUntouched(lit: Value -> string, tables: seq<FullSyncTable>, name: string)
    requires WellFormed(lit, tables) && forall t :: t in tables ==> t.name != name
    ensures On(TargetOf, FullSyncProgram(lit, tables), name) == []
  {
    var nameOf := (t: FullSyncTable) => t.name;
    var back := Reversed(tables);
    assert forall i :: 0 <= i < |back| ==> back[i] in tables;
    OnFlat(TargetOf, tables, Creates, nameOf, name);
    OnFlat(TargetOf, tables, TableUpserts(lit), nameOf, name);
    OnFlat(TargetOf, back, Deletes(lit), nameOf, name);
    OnConcat(TargetOf, Flat(tables, Creates), Flat(tables, TableUpserts(lit)), name);
    OnConcat(TargetOf, Flat(tables, Creates) + Flat(tables, TableUpserts(lit)), Flat(back, Deletes(lit)), name);
  }

  // ---- the transaction ----

  /** `IF NOT EXISTS` skips the create of a table that exists; otherwise Postgres refuses a second
      `PRIMARY KEY` among the columns. */
  predicate Refused(db: Database, s: Statement) {
    s.Create? && s.table !in db && |PrimaryKeyColumns(s.columns)| > 1
  }

  /** All statements in one transaction; none when one of them was refused. */
  function Transaction(db: Database, stmts: seq<Statement>): Option<Database> {
    if stmts == [] then Some(db)
    else
      match Transaction(db, stmts[..|stmts| - 1])
      case None => None
      case Some(before) =>
        var s := stmts[|stmts| - 1];
        if Refused(before, s) then None else Some(before[s.table := Exec(TableIn(before, EMPTY, s.table), s)])
  }

  /** The database after a full sync was applied: a refused one is rolled back. */
  function Applied(lit: Value -> string, tables: seq<FullSyncTable>, db: Database): Database {
    match Transaction(db, FullSyncProgram(lit, tables))
    case None => db
    case Some(after) => after
  }

  /** Every planned table exists already or has at most one key column. */
  predicate Creatable(tables: seq<FullSyncTable>, db: Database) {
    forall i :: 0 <= i < |tables| ==> tables[i].name in db || |PrimaryKeyColumns(tables[i].columns)| <= 1
  }

  lemma {:induction false} TransactionIsRun(db: Database, stmts: seq<Statement>)
    requires Transaction(db, stmts).Some?
    ensures Transaction(db, stmts) == Some(RunAll(db, stmts))
    decreases |stmts|
  {
    if stmts != [] {
      TransactionIsRun(db, stmts[..|stmts| - 1]);
    }
  }

  /** Statements other than creates are never refused. */
  lemma {:induction false} NothingElseRefused(db: Database, a: seq<Statement>, b: seq<Statement>)
    requires forall s :: s in b ==> !s.Create?
    ensures Transaction(db, a + b).Some? <==> Transaction(db, a).Some?
    decreases |b|
  {
    if b == [] {
      assert a + b == a;
    } else {
      assert (a + b)[..|a + b| - 1] == a + b[..|b| - 1];
      NothingElseRefused(db, a, b[..|b| - 1]);
    }
  }

  lemma OneCreate(db: Database, front: seq<Statement>, t: FullSyncTable)
    ensures var before, after := Transaction(db, front), Transaction(db, front + Creates(t));
            after.Some? <==> before.Some? && (t.name in before.value || |PrimaryKeyColumns(t.columns)| <= 1)
    ensures var before, after := Transaction(db, front), Transaction(db, front + Creates(t));
            after.Some? ==> after.value.Keys == before.value.Keys + {t.name}
  {
    var all := front + Creates(t);
    assert all[..|all| - 1] == front;
  }

  lemma {:induction false} CreatesRun(tables: seq<FullSyncTable>, db: Database)
    requires forall i, j :: 0 <= i < j < |tables| ==> tables[i].name != tables[j].name
    ensures var r := Transaction(db, Flat(tables, Creates));
            && (r.Some? <==> Creatable(tables, db))
            && (r.Some? ==>
                  forall name ::
                    name in r.value <==> name in db || exists i :: 0 <= i < |tables| && tables[i].name == name)
    decreases |tables|
  {
    if tables != [] {
      var front, last := tables[..|tables| - 1], tables[|tables| - 1];
      assert tables == front + [last];
      CreatesRun(front, db);
      OneCreate(db, Flat(front, Creates), last);
    }
  }

  lemma NoCreates(lit: Value -> string, tables: seq<FullSyncTable>)
    ensures forall s :: s in Flat(tables, TableUpserts(lit)) + Flat(Reversed(tables), Deletes(lit)) ==> !s.Create?
  {
    forall s | s in Flat(tables, TableUpserts(lit)) ensures !s.Create? {
      FlatMembers(tables, TableUpserts(lit), s);
    }
    forall s | s in Flat(Reversed(tables), Deletes(lit)) ensures !s.Create? {
      FlatMembers(Reversed(tables), Deletes(lit), s);
    }
  }

  lemma CreatesComeFirst(lit: Value -> string, tables: seq<FullSyncTable>)
    ensures FullSyncProgram(lit, tables)
         == Flat(tables, Creates) + (Flat(tables, TableUpserts(lit)) + Flat(Reversed(tables), Deletes(lit)))
  {
  }

  lemma AppliedIsRun(lit: Value -> string, tables: seq<FullSyncTable>, db: Database)
    ensures Applied(lit, tables, db) ==
              if Transaction(db, FullSyncProgram(lit, tables)).Some? then RunAll(db, FullSyncProgram(lit, tables))
                 else db
  {
    if Transaction(db, FullSyncProgram(lit, tables)).Some? {
      TransactionIsRun(db, FullSyncProgram(lit, tables));
    }
  }

  /** A full sync commits exactly when every table it has to create has at most one key column; then
      all its statements have run, and otherwise none has any effect. */
  lemma CommitsExactlyWhen(lit: Value -> string, tables: seq<FullSyncTable>, db: Database)
    requires WellFormed(lit, tables)
    ensures Transaction(db, FullSyncProgram(lit, tables)).Some? <==> Creatable(tables, db)
    ensures Applied(lit, tables, db) == if Creatable(tables, db) then RunAll(db, FullSyncProgram(lit, tables)) else db
  {
    var creates, rest := Flat(tables, Creates), Flat(tables, TableUpserts(lit)) + Flat(Reversed(tables), Deletes(lit));
    CreatesRun(tables, db);
    NoCreates(lit, tables);
    NothingElseRefused(db, creates, rest);
    CreatesComeFirst(lit, tables);
    AppliedIsRun(lit, tables, db);
  }

  // ---- the theorem ----

  lemma ProgramReachesSnapshot(lit: Value -> string, tables: seq<FullSyncTable>, db: Database, i: nat)
    requires WellFormed(lit, tables) && i < |tables|
    requires Conforms(TableIn(db, EMPTY, tables[i].name), ColumnSet(tables[i]), tables[i].primaryKey)
    ensures TableIn(RunAll(db, FullSyncProgram(lit, tables)), EMPTY, tables[i].name)
         == Table(Snapshot(PrintedAll(lit, tables[i].rows), tables[i].primaryKey), [])
  {
    var t, table := TableIn(db, EMPTY, tables[i].name), tables[i];
    OwnStatements(lit, tables, i);
    Locality(Exec, TargetOf, EMPTY, db, FullSyncProgram(lit, tables), table.name);
    UpsertsRun(t, Creates(table)[0], table.name, table.primaryKey, PrintedAll(lit, table.rows));
    LastRuns(t, Creates(table) + TableUpserts(lit)(table), Deletes(lit)(table)[0]);
    TableSyncs(t, ColumnSet(table), table.primaryKey, PrintedAll(lit, table.rows), table.name);
  }

  /** Full sync on Postgres, from any starting database whose managed tables conform to the plan: if
      no create is refused each planned table ends as its snapshot, with no duplicate and no
      leftover; if one is, the database is as before. */
  lemma FullSyncReachesSnapshot(lit: Value -> string, tables: seq<FullSyncTable>, db: Database, i: nat)
    requires WellFormed(lit, tables) && i < |tables|
    requires Conforms(TableIn(db, EMPTY, tables[i].name), ColumnSet(tables[i]), tables[i].primaryKey)
    ensures if Creatable(tables, db)
            then TableIn(Applied(lit, tables, db), EMPTY, tables[i].name)
                 == Table(Snapshot(PrintedAll(lit, tables[i].rows), tables[i].primaryKey), [])
            else Applied(lit, tables, db) == db
  {
    CommitsExactlyWhen(lit, tables, db);
    ProgramReachesSnapshot(lit, tables, db, i);
  }

  lemma FullSyncLeavesOthers(lit: Value -> string, tables: seq<FullSyncTable>, db: Database, name: string)
    requires WellFormed(lit, tables) && forall t :: t in tables ==> t.name != name
    ensures TableIn(Applied(lit, tables, db), EMPTY, name) == TableIn(db, EMPTY, name)
  {
    CommitsExactlyWhen(lit, tables, db);
    OthersUntouched(lit, tables, name);
    Locality(Exec, TargetOf, EMPTY, db, FullSyncProgram(lit, tables), name);
  }
}
