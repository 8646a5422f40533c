/** What a folded plan says, and that it meets what the two full-sync compilers need. */
module FullSyncSnapshot {
  import opened Common
  import opened Plans
  import opened Literals
  import opened Dedup
  import opened FullSync
  import opened Programs
  import opened TwoCompilers
  import Pg = Postgres
  import PgExport = PostgresExport
  import PgSync = PostgresFullSync
  import Ch = ClickHouse
  import ChExport = ClickHouseExport
  import ChSync = ClickHouseFullSync

  // ---- which tables come out, and with which rows ----

  predicate Distinct(names: seq<string>) {
    forall i, j :: 0 <= i < j < |names| ==> names[i] != names[j]
  }

  predicate Touches(ops: seq<Op>, table: string) {
    exists i :: 0 <= i < |ops| && ops[i].table == table
  }

  lemma TouchesOneMore(ops: seq<Op>, op: Op, table: string)
    ensures Touches(ops + [op], table) <==> Touches(ops, table) || op.table == table
  {
    if Touches(ops, table) {
      var i :| 0 <= i < |ops| && ops[i].table == table;
      assert (ops + [op])[i].table == table;
    }
    assert (ops + [op])[|ops|] == op;
  }

  ghost predicate Ordered(s: States, ops: seq<Op>) {
    && Distinct(s.order) && (forall name :: name in s.order <==> name in s.tables)
    && (forall name :: name in s.tables <==> Touches(ops, name))
  }

  lemma UpdateKeepsOrder(s: States, ops: seq<Op>, op: Op, state: TableState)
    requires Ordered(s, ops)
    ensures Ordered(Update(s, op.table, state), ops + [op])
  {
    forall name ensures name in Update(s, op.table, state).tables <==> Touches(ops + [op], name) {
      TouchesOneMore(ops, op, name);
    }
  }

  lemma FoldUpdates(format: Json -> string, ops: seq<Op>) returns (state: TableState)
    requires ops != [] && Fold(format, ops).Ok?
    ensures var front, op := ops[..|ops| - 1], ops[|ops| - 1];
            Fold(format, front).Ok? && Fold(format, ops).value == Update(Fold(format, front).value, op.table, state)
  {
    state := Fold(format, ops).value.tables[ops[|ops| - 1].table];
  }

  lemma OrderedMore(s: States, ops: seq<Op>, state: TableState)
    requires ops != [] && Ordered(s, ops[..|ops| - 1])
    ensures Ordered(Update(s, ops[|ops| - 1].table, state), ops)
  {
    UpdateKeepsOrder(s, ops[..|ops| - 1], ops[|ops| - 1], state);
    assert ops == ops[..|ops| - 1] + [ops[|ops| - 1]];
  }

  lemma {:induction false} FoldKeepsOrder(format: Json -> string, ops: seq<Op>)
    requires Fold(format, ops).Ok?
    ensures Ordered(Fold(format, ops).value, ops)
    decreases |ops|
  {
    if ops != [] {
      var state := FoldUpdates(format, ops);
      FoldKeepsOrder(format, ops[..|ops| - 1]);
      OrderedMore(Fold(format, ops[..|ops| - 1]).value, ops, state);
    }
  }

  lemma {:induction false} FinishLength(s: States, names: seq<string>)
    requires Finish(s, names).Ok?
    ensures |Finish(s, names).value| == |names|
    decreases |names|
  {
    if names != [] {
      FinishMore(s, names);
      FinishLength(s, names[..|names| - 1]);
    }
  }

  lemma {:induction false} FinishAt(s: States, names: seq<string>, i: nat)
    requires Finish(s, names).Ok? && i < |names|
    ensures |Finish(s, names).value| == |names| && Finish(s, names).value[i] == TableOf(names[i], StateOf(s, names[i]))
    ensures StateOf(s, names[i]).primaryKey != []
    decreases |names|
  {
    var front := names[..|names| - 1];
    FinishMore(s, names);
    FinishLength(s, front);
    if i < |front| {
      FinishAt(s, front, i);
    }
  }

  lemma FinishMore(s: States, names: seq<string>)
    requires names != [] && Finish(s, names).Ok?
    ensures var front, last := names[..|names| - 1], names[|names| - 1];
            && Finish(s, front).Ok? && StateOf(s, last).primaryKey != []
            && Finish(s, names).value == Finish(s, front).value + [TableOf(last, StateOf(s, last))]
  {
  }

  lemma TablesInOrder(format: Json -> string, plan: seq<Op>) returns (order: seq<string>)
    requires FullSyncTables(format, plan).Ok?
    ensures var tables := FullSyncTables(format, plan).value;
            |tables| == |order| && forall i :: 0 <= i < |order| ==> tables[i].name == order[i]
    ensures Distinct(order) && forall name :: name in order <==> Touches(plan, name)
  {
    order := Fold(format, plan).value.order;
    FoldKeepsOrder(format, plan);
    FinishLength(Fold(format, plan).value, order);
    forall i | 0 <= i < |order| ensures FullSyncTables(format, plan).value[i].name == order[i] {
      FinishAt(Fold(format, plan).value, order, i);
    }
  }

  /** The folded plan lists every table the plan mentions, once. */
  lemma TablesOfPlan(format: Json -> string, plan: seq<Op>)
    requires FullSyncTables(format, plan).Ok?
    ensures var tables := FullSyncTables(format, plan).value;
            && (forall i, j :: 0 <= i < j < |tables| ==> tables[i].name != tables[j].name)
            && (forall name :: Touches(plan, name) <==> exists i :: 0 <= i < |tables| && tables[i].name == name)
  {
    var tables := FullSyncTables(format, plan).value;
    var order := TablesInOrder(format, plan);
    forall name ensures Touches(plan, name) <==> exists i :: 0 <= i < |tables| && tables[i].name == name {
      if Touches(plan, name) {
        var i :| 0 <= i < |order| && order[i] == name;
        assert tables[i].name == name;
      }
      if exists i :: 0 <= i < |tables| && tables[i].name == name {
        var i :| 0 <= i < |tables| && tables[i].name == name;
        assert name == order[i] && name in order;
      }
    }
  }

  lemma {:induction false} LastUnderIsWritten(format: Json -> string, table: string, rows: seq<PlanRow>,
                                              pk: seq<string>, key: string)
    requires LastUnder(format, table, rows, pk, key).Some?
    ensures var row := LastUnder(format, table, rows, pk, key).value;
            row in rows && RowText(format, table, row, pk) == Some(key)
    decreases |rows|
  {
    if RowText(format, table, rows[|rows| - 1], pk) != Some(key) {
      LastUnderIsWritten(format, table, rows[..|rows| - 1], pk, key);
    }
  }

  /** Last write wins: a folded table holds, for each key the plan writes and in key order, the
      last row written under it, laid out in exactly the table's columns. */
  lemma LastWriteWins(format: Json -> string, plan: seq<Op>, i: nat, columns: seq<Column>, pk: seq<string>)
    returns (keys: seq<string>)
    requires FullSyncTables(format, plan).Ok? && i < |FullSyncTables(format, plan).value|
    requires OneSchema(plan, FullSyncTables(format, plan).value[i].name, columns, pk)
    ensures var table := FullSyncTables(format, plan).value[i];
            var written := WritesTo(plan, table.name);
            && table.columns == columns && table.primaryKey == pk && pk != []
            && SortedStrings(keys)
            && (forall r :: r in written ==> RowText(format, table.name, r, pk).Some?)
            && (forall key :: key in keys <==> LastUnder(format, table.name, written, pk, key).Some?)
            && |table.rows| == |keys|
            && forall j :: 0 <= j < |keys| ==>
                 && LastUnder(format, table.name, written, pk, keys[j]).Some?
                 && table.rows[j] == NormalizeRow(LastUnder(format, table.name, written, pk, keys[j]).value, columns)
  {
    var s, tables := Fold(format, plan).value, FullSyncTables(format, plan).value;
    FoldKeepsOrder(format, plan);
    FinishLength(s, s.order);
    FinishAt(s, s.order, i);
    var name := s.order[i];
    assert name in s.tables && tables[i] == TableOf(name, StateOf(s, name));
    FoldLastWins(format, plan, name, columns, pk);
    keys := SortedKeys(s.tables[name].rows.Keys);
    forall j | 0 <= j < |keys| ensures keys[j] in s.tables[name].rows { assert keys[j] in keys; }
  }

  // ---- from key texts to printed keys ----

  lemma {:induction false} OnlyIndex(columns: seq<string>, i: nat)
    requires Distinct(columns) && i < |columns|
    ensures IndexOf(columns, columns[i]) == i
    decreases i
  {
    if i > 0 {
      assert columns[0] != columns[i] && columns[1..][i - 1] == columns[i];
      OnlyIndex(columns[1..], i - 1);
    }
  }

  lemma {:induction false} ValueOfColumn(row: PlanRow, n: nat, i: nat)
    requires n <= |row.columns| && Distinct(row.columns) && i < n && i < |row.values|
    ensures row.columns[i] in ValuesByColumn(row, n) && ValuesByColumn(row, n)[row.columns[i]] == row.values[i]
    decreases n
  {
    if i < n - 1 {
      ValueOfColumn(row, n - 1, i);
    }
  }

  /** The row gives a value for the name at `i`, and at no later position. */
  predicate LastGiven(row: PlanRow, n: nat, name: string, i: nat)
    requires n <= |row.columns|
  {
    && i < n && i < |row.values| && row.columns[i] == name
    && forall k :: i < k < n && k < |row.values| ==> row.columns[k] != name
  }

  lemma {:induction false} ValuesAreLastGiven(row: PlanRow, n: nat, name: string)
    requires n <= |row.columns|
    ensures name in ValuesByColumn(row, n) <==>
            exists i :: 0 <= i < n && i < |row.values| && row.columns[i] == name
    ensures forall i :: 0 <= i < n && LastGiven(row, n, name, i) ==>
                          name in ValuesByColumn(row, n) && ValuesByColumn(row, n)[name] == row.values[i]
    decreases n
  {
    if n > 0 {
      ValuesAreLastGiven(row, n - 1, name);
      forall i | 0 <= i < n - 1 && LastGiven(row, n, name, i) ensures LastGiven(row, n - 1, name, i) {
      }
    }
  }

  /** The laid-out row has exactly the table's columns in their order; each holds the last value the
      row gives for it, and null when it gives none. */
  lemma NormalizedRowIs(row: PlanRow, columns: seq<Column>, j: nat)
    requires j < |columns|
    ensures var r, name := NormalizeRow(row, columns), columns[j].name;
            && |r.columns| == |r.values| == |columns| && r.columns[j] == name
            && (forall i :: 0 <= i < |row.columns| && LastGiven(row, |row.columns|, name, i) ==>
                             r.values[j] == row.values[i])
            && ((forall i :: 0 <= i < |row.columns| && i < |row.values| ==> row.columns[i] != name) ==>
                  r.values[j] == Scalar(JNull))
  {
    ValuesAreLastGiven(row, |row.columns|, columns[j].name);
  }

  /** Laying a row out in the table's columns keeps what it says. */
  lemma NormalizedKeepsField(row: PlanRow, columns: seq<Column>, name: string)
    requires Distinct(row.columns) && Distinct(Names(columns)) && name in Names(columns) && Carries(row, name)
    ensures Carries(NormalizeRow(row, columns), name) && Field(NormalizeRow(row, columns), name) == Field(row, name)
  {
    var i :| 0 <= i < |columns| && Names(columns)[i] == name;
    OnlyIndex(Names(columns), i);
    ValueOfColumn(row, |row.columns|, IndexOf(row.columns, name));
  }

  ghost predicate KeyPrints(lit: Value -> string, row: PlanRow, pk: seq<string>) {
    Distinct(row.columns) && CarriesAll(row, pk) && NULL !in KeyOf(Printed(lit, row), pk)
  }

  /** The written rows carry a key that prints to something other than NULL, and keys that print
      alike have the same key text. */
  ghost predicate KeysAgree(format: Json -> string, lit: Value -> string, table: string, rows: seq<PlanRow>,
                            pk: seq<string>) {
    && (forall r :: r in rows ==> KeyPrints(lit, r, pk))
    && (forall r, s :: r in rows && s in rows && RowKey(Printed(lit, r), pk) == RowKey(Printed(lit, s), pk) ==>
          RowText(format, table, r, pk) == RowText(format, table, s, pk))
  }

  /** A string or a number, as keys in an API response are. */
  predicate PlainKey(v: Value) {
    v.Scalar? && (v.scalar.JString? || v.scalar.JNumber?)
  }

  predicate PlainKeys(row: PlanRow, pk: seq<string>) {
    Distinct(row.columns) && CarriesAll(row, pk) &&
    forall i :: 0 <= i < |pk| ==> Carries(row, pk[i]) && PlainKey(Field(row, pk[i]))
  }

  /** `%v` prints a string as itself and a number as the adapters print it. */
  ghost predicate SameNumbers(format: Json -> string, printer: Printer) {
    && PlainPrinter(printer) && (forall n :: printer.number(n) != NULL)
    && (forall n :: format(JNumber(n)) == printer.number(n)) && (forall s :: format(JString(s)) == s)
  }

  lemma LiteralDecidesText(format: Json -> string, d: Dialect, printer: Printer, v: Value, w: Value)
    requires SameNumbers(format, printer) && PlainKey(v) && PlainKey(w)
    ensures SQLLiteral(d, printer, v) != NULL
    ensures SQLLiteral(d, printer, v) == SQLLiteral(d, printer, w) ==> ValueText(format)(v) == ValueText(format)(w)
  {
    if v.scalar.JString? {
      var quoted := QuoteSQLString(d, v.scalar.text);
      assert quoted[|quoted| - 1] == '\'' && '\'' in quoted;
      if w.scalar.JString? && quoted == QuoteSQLString(d, w.scalar.text) {
        QuotingIsInjective(d, v.scalar.text, w.scalar.text);
      }
    } else if w.scalar.JString? {
      var quoted := QuoteSQLString(d, w.scalar.text);
      assert quoted[|quoted| - 1] == '\'' && '\'' in quoted;
    }
  }

  lemma SameKeySameText(format: Json -> string, d: Dialect, printer: Printer, table: string, r: PlanRow, s: PlanRow,
                        pk: seq<string>)
    requires SameNumbers(format, printer) && PlainKeys(r, pk) && PlainKeys(s, pk)
    requires RowKey(Printed(LiteralOf(d, printer), r), pk) == RowKey(Printed(LiteralOf(d, printer), s), pk)
    ensures RowText(format, table, r, pk) == RowText(format, table, s, pk)
  {
    var lit, text := LiteralOf(d, printer), ValueText(format);
    assert CarriesAll(Printed(lit, r), pk) && CarriesAll(Printed(lit, s), pk);
    forall i | 0 <= i < |pk| ensures text(Field(r, pk[i])) == text(Field(s, pk[i])) {
      assert KeyOf(Printed(lit, r), pk)[i] == KeyOf(Printed(lit, s), pk)[i];
      LiteralDecidesText(format, d, printer, Field(r, pk[i]), Field(s, pk[i]));
    }
    assert KeyOf(Printed(text, r), pk) == KeyOf(Printed(text, s), pk);
  }

  /** String and number keys fold as they print. */
  lemma PlainKeysAgree(format: Json -> string, d: Dialect, printer: Printer, table: string, rows: seq<PlanRow>,
                       pk: seq<string>)
    requires SameNumbers(format, printer) && forall r :: r in rows ==> PlainKeys(r, pk)
    ensures KeysAgree(format, LiteralOf(d, printer), table, rows, pk)
  {
    var lit := LiteralOf(d, printer);
    forall r | r in rows ensures KeyPrints(lit, r, pk) {
      forall i | 0 <= i < |pk| ensures KeyOf(Printed(lit, r), pk)[i] != NULL {
        assert Carries(r, pk[i]);
        LiteralDecidesText(format, d, printer, Field(r, pk[i]), Field(r, pk[i]));
      }
    }
    forall r, s | r in rows && s in rows && RowKey(Printed(lit, r), pk) == RowKey(Printed(lit, s), pk)
      ensures RowText(format, table, r, pk) == RowText(format, table, s, pk)
    {
      SameKeySameText(format, d, printer, table, r, s, pk);
    }
  }

  lemma NamesAre(columns: seq<Column>)
    ensures forall c :: c in Names(columns) <==> c in set i | 0 <= i < |columns| :: columns[i].name
  {
    assert forall i :: 0 <= i < |columns| ==> Names(columns)[i] == columns[i].name;
  }

  lemma PrintedKeyKept(lit: Value -> string, row: PlanRow, columns: seq<Column>, pk: seq<string>)
    requires Distinct(Names(columns)) && (forall c :: c in pk ==> c in Names(columns))
    requires Distinct(row.columns) && CarriesAll(row, pk)
    ensures var r := Printed(lit, NormalizeRow(row, columns));
            CarriesAll(r, pk) && KeyOf(r, pk) == KeyOf(Printed(lit, row), pk)
  {
    forall i | 0 <= i < |pk|
      ensures Carries(NormalizeRow(row, columns), pk[i])
      ensures Field(NormalizeRow(row, columns), pk[i]) == Field(row, pk[i])
    {
      assert Carries(row, pk[i]);
      NormalizedKeepsField(row, columns, pk[i]);
    }
  }

  lemma NormalizedIsComplete(lit: Value -> string, row: PlanRow, columns: seq<Column>, pk: seq<string>)
    requires pk != [] && Distinct(Names(columns)) && (forall c :: c in pk ==> c in Names(columns))
    requires KeyPrints(lit, row, pk)
    ensures RowKey(Printed(lit, NormalizeRow(row, columns)), pk) == RowKey(Printed(lit, row), pk)
    ensures Complete(Printed(lit, NormalizeRow(row, columns)), set i | 0 <= i < |columns| :: columns[i].name, pk)
  {
    PrintedKeyKept(lit, row, columns, pk);
    NamesAre(columns);
  }

  lemma FoldedTableIsSound(format: Json -> string, lit: Value -> string, plan: seq<Op>, i: nat)
    requires FullSyncTables(format, plan).Ok? && i < |FullSyncTables(format, plan).value|
    requires SoundTable(format, lit, plan, FullSyncTables(format, plan).value[i])
    ensures var table := FullSyncTables(format, plan).value[i];
            && AllComplete(PrintedAll(lit, table.rows), PgSync.ColumnSet(table), table.primaryKey)
            && DistinctKeys(PrintedAll(lit, table.rows), table.primaryKey)
  {
    var table := FullSyncTables(format, plan).value[i];
    var name, columns, pk, written := table.name, table.columns, table.primaryKey, WritesTo(plan, table.name);
    var keys := LastWriteWins(format, plan, i, columns, pk);
    var last := (k: string) => LastUnder(format, name, written, pk, k);
    forall j | 0 <= j < |keys|
      ensures last(keys[j]).Some? && last(keys[j]).value in written
      ensures RowText(format, name, last(keys[j]).value, pk) == Some(keys[j])
      ensures RowKey(Printed(lit, table.rows[j]), pk) == RowKey(Printed(lit, last(keys[j]).value), pk)
      ensures Complete(Printed(lit, table.rows[j]), PgSync.ColumnSet(table), pk)
    {
      LastUnderIsWritten(format, name, written, pk, keys[j]);
      NormalizedIsComplete(lit, last(keys[j]).value, columns, pk);
    }
    var printed := PrintedAll(lit, table.rows);
    forall a, b | 0 <= a < b < |printed| ensures RowKey(printed[a], pk) != RowKey(printed[b], pk) {
      assert keys[a] != keys[b];
    }
    forall r | r in printed ensures Complete(r, PgSync.ColumnSet(table), pk) {
      var j :| 0 <= j < |printed| && printed[j] == r;
    }
  }

  /** The plan can be folded into this table without guessing: one schema, key columns among its
      columns, and keys that print faithfully. */
  ghost predicate SoundTable(format: Json -> string, lit: Value -> string, plan: seq<Op>, table: FullSyncTable) {
    && OneSchema(plan, table.name, table.columns, table.primaryKey)
    && Distinct(Names(table.columns)) && (forall c :: c in table.primaryKey ==> c in Names(table.columns))
    && KeysAgree(format, lit, table.name, WritesTo(plan, table.name), table.primaryKey)
  }

  ghost predicate SoundPlan(format: Json -> string, lit: Value -> string, plan: seq<Op>)
    requires FullSyncTables(format, plan).Ok?
  {
    forall t :: t in FullSyncTables(format, plan).value ==> SoundTable(format, lit, plan, t)
  }

  lemma FoldedPlanIsWellFormed(format: Json -> string, lit: Value -> string, plan: seq<Op>)
    requires FullSyncTables(format, plan).Ok? && SoundPlan(format, lit, plan)
    ensures PgSync.WellFormed(lit, FullSyncTables(format, plan).value)
  {
    var tables := FullSyncTables(format, plan).value;
    TablesOfPlan(format, plan);
    forall t | t in tables ensures AllComplete(PrintedAll(lit, t.rows), PgSync.ColumnSet(t), t.primaryKey) {
      var i :| 0 <= i < |tables| && tables[i] == t;
      FoldedTableIsSound(format, lit, plan, i);
    }
  }

  /** From plan to databases: whatever both databases held before, after their full syncs each
      holds, for every key the plan writes to the table, the last row written under it, and no
      other row; Postgres unless it refuses a create. */
  lemma BothHoldLastWrites(format: Json -> string, pgLit: Value -> string, chLit: Value -> string, plan: seq<Op>,
                           i: nat,
                           pgDb: PgExport.Database, chDb: ChExport.Database)
    returns (keys: seq<string>)
    requires FullSyncTables(format, plan).Ok? && SoundPlan(format, pgLit, plan)
    requires i < |FullSyncTables(format, plan).value|
    requires var table := FullSyncTables(format, plan).value[i];
             PgSync.Conforms(TableIn(pgDb, Pg.EMPTY, table.name), PgSync.ColumnSet(table), table.primaryKey)
    ensures var tables := FullSyncTables(format, plan).value;
            var table := tables[i];
            var written := WritesTo(plan, table.name);
            var pg := TableIn(PgSync.Applied(pgLit, tables, pgDb), Pg.EMPTY, table.name);
            var ch := TableIn(ChExport.RunAll(chDb, ChSync.FullSyncProgram(chLit, tables)), Ch.EMPTY, table.name);
            && SortedStrings(keys)
            && (forall key :: key in keys <==> LastUnder(format, table.name, written, table.primaryKey, key).Some?)
            && |ch| == |keys| && (PgSync.Creatable(tables, pgDb) ==> pg.loose == [] && |pg.keyed| == |keys|)
            && forall j :: 0 <= j < |keys| ==>
                 && LastUnder(format, table.name, written, table.primaryKey, keys[j]).Some?
                 && var row := NormalizeRow(LastUnder(format, table.name, written, table.primaryKey, keys[j]).value,
                                            table.columns);
                    && ch[j] == Cells(Printed(chLit, row))
                    && (PgSync.Creatable(tables, pgDb) ==>
                          && RowKey(Printed(pgLit, row), table.primaryKey) in pg.keyed
                          && pg.keyed[RowKey(Printed(pgLit, row), table.primaryKey)] == Cells(Printed(pgLit, row)))
  {
    var tables := FullSyncTables(format, plan).value;
    FoldedPlanIsWellFormed(format, pgLit, plan);
    FoldedTableIsSound(format, pgLit, plan, i);
    SameSnapshot(pgLit, chLit, tables, i, pgDb, chDb);
    keys := LastWriteWins(format, plan, i, tables[i].columns, tables[i].primaryKey);
  }

  lemma LinkHasTwoKeys(op: Op)
    requires op.CreateLinkTable?
    ensures |PrimaryKeyColumns(LinkColumns(op))| == 2
  {
    var columns := LinkColumns(op);
    assert columns[..1] == [columns[0]] && columns[..1][..0] == [];
    assert PrimaryKeyColumns(columns[..1]) == [] + [op.leftColumn];
    assert PrimaryKeyColumns(columns) == PrimaryKeyColumns(columns[..1]) + [op.rightColumn];
  }

  /** Refused creates do occur: a full reload that holds a link table Postgres does not have yet is
      rolled back, as both its columns are marked as key. */
  lemma NewLinkTableIsRefused(format: Json -> string, lit: Value -> string, plan: seq<Op>, op: Op,
                              db: PgExport.Database)
    requires FullSyncTables(format, plan).Ok? && SoundPlan(format, lit, plan)
    requires op in plan && op.CreateLinkTable? && op.table !in db
    ensures PgSync.Transaction(db, PgSync.FullSyncProgram(lit, FullSyncTables(format, plan).value)) == None
  {
    var tables := FullSyncTables(format, plan).value;
    TablesOfPlan(format, plan);
    var n :| 0 <= n < |plan| && plan[n] == op;
    assert Touches(plan, op.table);
    var i :| 0 <= i < |tables| && tables[i].name == op.table;
    assert tables[i] in tables && tables[i].columns == ColumnsOf(plan[n]);
    LinkHasTwoKeys(op);
    FoldedPlanIsWellFormed(format, lit, plan);
    PgSync.CommitsExactlyWhen(lit, tables, db);
  }
}
