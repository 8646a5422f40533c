/** Folding a full-reload plan into the snapshot to keep: last write wins. */
module FullSync {
  import opened Common
  import opened Plans
  import opened Literals

  datatype TableState = TableState(columns: seq<Column>, primaryKey: seq<string>, rows: map<string, PlanRow>)

  /** Tables by name, and their names in order of first mention. */
  datatype States = States(tables: map<string, TableState>, order: seq<string>)

  /** How `%v` prints a value, an array followed by its element type. */
  function ValueText(format: Json -> string): Value -> string {
    (v: Value) => match v
      case Scalar(json) => format(json)
      case Array(items, elementType) => format(JArray(items)) + "|" + elementType
  }

  /** `table|column=value|...` over the primary key; none when a key column is missing. */
  function RowText(format: Json -> string, table: string, row: PlanRow, pk: seq<string>): Option<string> {
    DedupKey(table, Printed(ValueText(format), row), pk)
  }

  /** The value a row gives for each column; a repeated column counts as its last value. */
  function ValuesByColumn(row: PlanRow, n: nat): map<string, Value>
    requires n <= |row.columns|
  {
    if n == 0 then map[]
    else if n - 1 < |row.values| then ValuesByColumn(row, n - 1)[row.columns[n - 1] := row.values[n - 1]]
    else ValuesByColumn(row, n - 1)
  }

  function ValueOrNull(values: map<string, Value>, column: string): Value {
    if column in values then values[column] else Scalar(JNull)
  }

  /** The row with exactly the table's columns, in their order. */
  function NormalizeRow(row: PlanRow, columns: seq<Column>): PlanRow {
    var values := ValuesByColumn(row, |row.columns|);
    InsertRow(Names(columns), seq(|columns|, i requires 0 <= i < |columns| => ValueOrNull(values, columns[i].name)))
  }

  method NormalizeFullSyncRow(row: PlanRow, columns: seq<Column>) returns (r: PlanRow)
    ensures r == NormalizeRow(row, columns)
  {
    var values: map<string, Value> := map[];
    for i := 0 to |row.columns|
      invariant values == ValuesByColumn(row, i)
    {
      if i < |row.values| {
        values := values[row.columns[i] := row.values[i]];
      }
    }
    var names: seq<string> := [];
    var cells: seq<Value> := [];
    for i := 0 to |columns|
      invariant names == Names(columns)[..i]
      invariant cells == NormalizeRow(row, columns).values[..i]
    {
      names, cells := names + [columns[i].name], cells + [ValueOrNull(values, columns[i].name)];
    }
    r := InsertRow(names, cells);
  }

  // ---- the fold ----

  function AddRows(format: Json -> string, table: string, state: TableState, rows: seq<PlanRow>): Result<TableState> {
    if rows == [] then Ok(state)
    else
      match AddRows(format, table, state, rows[..|rows| - 1])
      case Failed => Failed
      case Ok(before) =>
        match RowText(format, table, rows[|rows| - 1], state.primaryKey)
        case None => Failed
        case Some(key) => Ok(before.(rows := before.rows[key := NormalizeRow(rows[|rows| - 1], state.columns)]))
  }

  method AddFullSyncRows(format: Json -> string, table: string, state: TableState, rows: seq<PlanRow>)
    returns (r: Result<TableState>)
    requires state.primaryKey != []
    ensures r == AddRows(format, table, state, rows)
  {
    var current := state.rows;
    for i := 0 to |rows|
      invariant AddRows(format, table, state, rows[..i]) == Ok(state.(rows := current))
    {
      assert rows[..i + 1][..i] == rows[..i];
      AddRowsFails(format, table, state, rows, i + 1);
      var key := RowText(format, table, rows[i], state.primaryKey);
      if key.None? {
        return Failed;
      }
      var row := NormalizeFullSyncRow(rows[i], state.columns);
      current := current[key.value := row];
    }
    assert rows[..|rows|] == rows;
    return Ok(state.(rows := current));
  }

  lemma {:induction false} AddRowsFails(format: Json -> string, table: string, state: TableState, rows: seq<PlanRow>,
                                        n: nat)
    requires n <= |rows|
    ensures AddRows(format, table, state, rows[..n]).Failed? ==> AddRows(format, table, state, rows).Failed?
    decreases |rows| - n
  {
    if n == |rows| {
      assert rows[..n] == rows;
    } else {
      assert rows[..n + 1][..n] == rows[..n];
      AddRowsFails(format, table, state, rows, n + 1);
    }
  }

  function StateOf(s: States, name: string): TableState {
    if name in s.tables then s.tables[name] else TableState([], [], map[])
  }

  function Update(s: States, name: string, state: TableState): States {
    States(s.tables[name := state], if name in s.tables then s.order else s.order + [name])
  }

  function LinkColumns(op: Op): seq<Column>
    requires op.CreateLinkTable?
  {
    [Column(op.leftColumn, op.leftType, false, true), Column(op.rightColumn, op.rightType, false, true)]
  }

  function ColumnsOf(op: Op): seq<Column>
    requires !op.InsertRows?
  {
    if op.CreateTable? then op.columns else LinkColumns(op)
  }

  function KeyColumnsOf(op: Op): seq<string>
    requires !op.InsertRows?
  {
    if op.CreateTable? then PrimaryKeyColumns(op.columns)
    else if op.linkKey != [] then op.linkKey else [op.leftColumn, op.rightColumn]
  }

  function FoldOp(format: Json -> string, s: States, op: Op): Result<States> {
    var state := StateOf(s, op.table);
    if !op.InsertRows? then Ok(Update(s, op.table, TableState(ColumnsOf(op), KeyColumnsOf(op), state.rows)))
    else if state.primaryKey == [] then Failed
    else
      match AddRows(format, op.table, state, op.rows)
      case Failed => Failed
      case Ok(state') => Ok(Update(s, op.table, state'))
  }

  function Fold(format: Json -> string, ops: seq<Op>): Result<States> {
    if ops == [] then Ok(States(map[], []))
    else
      match Fold(format, ops[..|ops| - 1])
      case Failed => Failed
      case Ok(s) => FoldOp(format, s, ops[|ops| - 1])
  }

  lemma {:induction false} FoldFails(format: Json -> string, ops: seq<Op>, n: nat)
    requires n <= |ops|
    ensures Fold(format, ops[..n]).Failed? ==> Fold(format, ops).Failed?
    decreases |ops| - n
  {
    if n == |ops| {
      assert ops[..n] == ops;
    } else {
      assert ops[..n + 1][..n] == ops[..n];
      FoldFails(format, ops, n + 1);
    }
  }

  /** The rows of a table in the order of their keys. */
  function SortedRows(rows: map<string, PlanRow>): seq<PlanRow> {
    var keys := SortedKeys(rows.Keys);
    seq(|keys|, i requires 0 <= i < |keys| => if keys[i] in rows then rows[keys[i]] else InsertRow([], []))
  }

  function TableOf(name: string, state: TableState): FullSyncTable {
    FullSyncTable(name, state.columns, state.primaryKey, SortedRows(state.rows))
  }

  function Finish(s: States, names: seq<string>): Result<seq<FullSyncTable>> {
    if names == [] then Ok([])
    else
      match Finish(s, names[..|names| - 1])
      case Failed => Failed
      case Ok(tables) =>
        var name := names[|names| - 1];
        if StateOf(s, name).primaryKey == [] then Failed else Ok(tables + [TableOf(name, StateOf(s, name))])
  }

  function FullSyncTables(format: Json -> string, plan: seq<Op>): Result<seq<FullSyncTable>> {
    match Fold(format, plan)
    case Failed => Failed
    case Ok(s) => Finish(s, s.order)
  }

  method FoldPlan(format: Json -> string, plan: seq<Op>) returns (r: Result<States>)
    ensures r == Fold(format, plan)
  {
    var s := States(map[], []);
    for i := 0 to |plan|
      invariant Fold(format, plan[..i]) == Ok(s)
    {
      assert plan[..i + 1][..i] == plan[..i];
      FoldFails(format, plan, i + 1);
      var op := plan[i];
      var state := StateOf(s, op.table);
      if !op.InsertRows? {
        s := Update(s, op.table, TableState(ColumnsOf(op), KeyColumnsOf(op), state.rows));
      } else {
        if state.primaryKey == [] {
          return Failed;
        }
        var added := AddFullSyncRows(format, op.table, state, op.rows);
        if added.Failed? {
          return Failed;
        }
        s := Update(s, op.table, added.value);
      }
    }
    assert plan[..|plan|] == plan;
    return Ok(s);
  }

  /** Finishing one more table. */
  lemma FinishNext(s: States, names: seq<string>, i: nat)
    requires i < |names| && Finish(s, names[..i]).Ok?
    ensures Finish(s, names[..i + 1]) ==
              if StateOf(s, names[i]).primaryKey == [] then Failed
              else Ok(Finish(s, names[..i]).value + [TableOf(names[i], StateOf(s, names[i]))])
  {
    assert names[..i + 1][..i] == names[..i];
  }

  method FinishTable(s: States, name: string) returns (r: Option<FullSyncTable>)
    ensures r == if StateOf(s, name).primaryKey == [] then None else Some(TableOf(name, StateOf(s, name)))
  {
    var state := StateOf(s, name);
    if state.primaryKey == [] {
      return None;
    }
    return Some(TableOf(name, state));
  }

  method FinishTables(s: States) returns (r: Result<seq<FullSyncTable>>)
    ensures r == Finish(s, s.order)
  {
    var tables: seq<FullSyncTable> := [];
    for i := 0 to |s.order|
      invariant Finish(s, s.order[..i]) == Ok(tables)
    {
      FinishNext(s, s.order, i);
      var table := FinishTable(s, s.order[i]);
      if table.None? {
        FinishFails(s, s.order, i + 1);
        return Failed;
      }
      tables := tables + [table.value];
    }
    assert s.order[..|s.order|] == s.order;
    return Ok(tables);
  }

  method BuildFullSyncPlan(format: Json -> string, plan: seq<Op>) returns (r: Result<seq<FullSyncTable>>)
    ensures r == FullSyncTables(format, plan)
  {
    var folded := FoldPlan(format, plan);
    if folded.Failed? {
      return Failed;
    }
    r := FinishTables(folded.value);
  }

  lemma {:induction false} FinishFails(s: States, names: seq<string>, n: nat)
    requires n <= |names|
    ensures Finish(s, names[..n]).Failed? ==> Finish(s, names).Failed?
    decreases |names| - n
  {
    if n == |names| {
      assert names[..n] == names;
    } else {
      assert names[..n + 1][..n] == names[..n];
      FinishFails(s, names, n + 1);
    }
  }

  // ---- last write wins ----

  /** Every create of the table declares these columns and this key, before any row of it. */
  predicate OneSchema(ops: seq<Op>, table: string, columns: seq<Column>, pk: seq<string>) {
    forall i :: 0 <= i < |ops| && ops[i].table == table && !ops[i].InsertRows? ==>
      ColumnsOf(ops[i]) == columns && KeyColumnsOf(ops[i]) == pk
  }

  /** The last row written under a key text. */
  function LastUnder(format: Json -> string, table: string, rows: seq<PlanRow>, pk: seq<string>,
                     key: string): Option<PlanRow> {
    if rows == [] then None
    else if RowText(format, table, rows[|rows| - 1], pk) == Some(key) then Some(rows[|rows| - 1])
    else LastUnder(format, table, rows[..|rows| - 1], pk, key)
  }

  /** The stored rows are exactly the last row written under each key, normalised. */
  ghost predicate LastWins(format: Json -> string, table: string, state: TableState, rows: seq<PlanRow>) {
    && (forall i :: 0 <= i < |rows| ==> RowText(format, table, rows[i], state.primaryKey).Some?)
    && (forall key :: key in state.rows <==> LastUnder(format, table, rows, state.primaryKey, key).Some?)
    && (forall key :: key in state.rows ==>
          state.rows[key] == NormalizeRow(LastUnder(format, table, rows, state.primaryKey, key).value, state.columns))
  }

  lemma LastWinsStep(format: Json -> string, table: string, state: TableState, rows: seq<PlanRow>, row: PlanRow)
    requires LastWins(format, table, state, rows) && RowText(format, table, row, state.primaryKey).Some?
    ensures var key := RowText(format, table, row, state.primaryKey).value;
            LastWins(format, table, state.(rows := state.rows[key := NormalizeRow(row, state.columns)]), rows + [row])
  {
    assert (rows + [row])[..|rows|] == rows;
  }

  lemma {:induction false} AddRowsLastWins(format: Json -> string, table: string, state: TableState,
                                           before: seq<PlanRow>, rows: seq<PlanRow>)
    requires LastWins(format, table, state, before) && AddRows(format, table, state, rows).Ok?
    ensures var after := AddRows(format, table, state, rows).value;
            && after.columns == state.columns && after.primaryKey == state.primaryKey
            && LastWins(format, table, after, before + rows)
    decreases |rows|
  {
    if rows == [] {
      assert before + rows == before;
    } else {
      var front, last := rows[..|rows| - 1], rows[|rows| - 1];
      AddRowsLastWins(format, table, state, before, front);
      LastWinsStep(format, table, AddRows(format, table, state, front).value, before + front, last);
      assert before + rows == before + front + [last];
    }
  }

  lemma EmptyLastWins(format: Json -> string, table: string, state: TableState)
    requires state.rows == map[]
    ensures LastWins(format, table, state, [])
  {
  }

  /** The state of a table after any part of a plan with one schema for it. */
  lemma {:induction false} FoldLastWins(format: Json -> string, ops: seq<Op>, table: string, columns: seq<Column>,
                                        pk: seq<string>)
    requires Fold(format, ops).Ok? && OneSchema(ops, table, columns, pk)
    ensures var s := Fold(format, ops).value;
            && (table !in s.tables ==> WritesTo(ops, table) == [])
            && (table in s.tables ==>
                  && s.tables[table].columns == columns && s.tables[table].primaryKey == pk
                  && LastWins(format, table, s.tables[table], WritesTo(ops, table)))
    decreases |ops|
  {
    if ops != [] {
      var front, op := ops[..|ops| - 1], ops[|ops| - 1];
      FoldLastWins(format, front, table, columns, pk);
      var s := Fold(format, front).value;
      if op.table == table {
        assert !op.InsertRows? ==> ColumnsOf(op) == columns && KeyColumnsOf(op) == pk;
        if op.InsertRows? {
          AddRowsLastWins(format, table, s.tables[table], WritesTo(front, table), op.rows);
        } else if table !in s.tables {
          EmptyLastWins(format, table, TableState(columns, pk, map[]));
        }
      }
    }
  }
}
