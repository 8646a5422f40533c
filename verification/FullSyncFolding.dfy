/** Which full-reload plans fold into a snapshot, and with which columns and keys. */
module FullSyncFolding {
  import opened Common
  import opened Plans
  import opened Literals
  import opened FullSync
  import opened FullSyncSnapshot

  /** The key of the last create of a table among the operations; none when there is no create. */
  function KeyAfter(ops: seq<Op>, table: string): seq<string> {
    if ops == [] then []
    else
      var last := ops[|ops| - 1];
      if last.table == table && !last.InsertRows? then KeyColumnsOf(last) else KeyAfter(ops[..|ops| - 1], table)
  }

  /** A row is written only to a table that has a key by then, and gives a value for all of it. */
  predicate CanWrite(ops: seq<Op>, i: nat)
    requires i < |ops|
  {
    ops[i].InsertRows? ==>
      var key := KeyAfter(ops[..i], ops[i].table);
      key != [] && forall r :: r in ops[i].rows ==> CarriesAll(r, key)
  }

  predicate AllCanBeWritten(ops: seq<Op>) {
    forall i: nat :: i < |ops| ==> CanWrite(ops, i)
  }

  lemma {:induction false} FoldKnowsKey(format: Json -> string, ops: seq<Op>, table: string)
    requires Fold(format, ops).Ok?
    ensures StateOf(Fold(format, ops).value, table).primaryKey == KeyAfter(ops, table)
    decreases |ops|
  {
    if ops != [] {
      FoldKnowsKey(format, ops[..|ops| - 1], table);
      if ops[|ops| - 1].InsertRows? && ops[|ops| - 1].table == table {
        var s, op := Fold(format, ops[..|ops| - 1]).value, ops[|ops| - 1];
        AddRowsKeepsKey(format, table, StateOf(s, table), op.rows);
      }
    }
  }

  lemma {:induction false} AddRowsKeepsKey(format: Json -> string, table: string, state: TableState, rows: seq<PlanRow>)
    requires AddRows(format, table, state, rows).Ok?
    ensures AddRows(format, table, state, rows).value.primaryKey == state.primaryKey
    decreases |rows|
  {
    if rows != [] {
      AddRowsKeepsKey(format, table, state, rows[..|rows| - 1]);
    }
  }

  lemma TextNeedsKey(format: Json -> string, table: string, row: PlanRow, pk: seq<string>)
    requires pk != []
    ensures RowText(format, table, row, pk).Some? <==> CarriesAll(row, pk)
  {
    var printed := Printed(ValueText(format), row);
    assert forall c :: Carries(printed, c) <==> Carries(row, c);
    if CarriesAll(row, pk) {
      assert CarriesAll(printed, pk);
    }
    if CarriesAll(printed, pk) {
      forall i | 0 <= i < |pk| ensures Carries(row, pk[i]) { assert Carries(printed, pk[i]); }
    }
  }

  lemma {:induction false} AddRowsSucceeds(format: Json -> string, table: string, state: TableState, rows: seq<PlanRow>)
    requires state.primaryKey != []
    ensures AddRows(format, table, state, rows).Ok? <==> forall r :: r in rows ==> CarriesAll(r, state.primaryKey)
    decreases |rows|
  {
    if rows != [] {
      var front, last := rows[..|rows| - 1], rows[|rows| - 1];
      AddRowsSucceeds(format, table, state, front);
      TextNeedsKey(format, table, last, state.primaryKey);
      assert rows == front + [last];
    }
  }

  lemma OneMoreWritten(ops: seq<Op>)
    requires ops != []
    ensures AllCanBeWritten(ops) <==> AllCanBeWritten(ops[..|ops| - 1]) && CanWrite(ops, |ops| - 1)
  {
    var front := ops[..|ops| - 1];
    forall i: nat | i < |front| ensures CanWrite(ops, i) <==> CanWrite(front, i) {
      assert ops[..i] == front[..i] && ops[i] == front[i];
    }
  }

  lemma {:induction false} FoldSucceeds(format: Json -> string, ops: seq<Op>)
    ensures Fold(format, ops).Ok? <==> AllCanBeWritten(ops)
    decreases |ops|
  {
    if ops != [] {
      var front, op := ops[..|ops| - 1], ops[|ops| - 1];
      FoldSucceeds(format, front);
      OneMoreWritten(ops);
      if Fold(format, front).Ok? && op.InsertRows? {
        var state := StateOf(Fold(format, front).value, op.table);
        FoldKnowsKey(format, front, op.table);
        if state.primaryKey != [] {
          AddRowsSucceeds(format, op.table, state, op.rows);
        }
      }
    }
  }

  lemma {:induction false} FinishSucceeds(s: States, names: seq<string>)
    ensures Finish(s, names).Ok? <==> forall i :: 0 <= i < |names| ==> StateOf(s, names[i]).primaryKey != []
    decreases |names|
  {
    if names != [] {
      var front := names[..|names| - 1];
      FinishSucceeds(s, front);
      assert forall i :: 0 <= i < |front| ==> front[i] == names[i];
    }
  }

  /** A plan folds exactly when every row is written to a table that has a key by then and gives a
      value for all of it, and every table of the plan ends with a key. */
  lemma FoldsExactlyWhen(format: Json -> string, plan: seq<Op>)
    ensures FullSyncTables(format, plan).Ok? <==>
              AllCanBeWritten(plan) && forall i :: 0 <= i < |plan| ==> KeyAfter(plan, plan[i].table) != []
  {
    FoldSucceeds(format, plan);
    if Fold(format, plan).Ok? {
      var s := Fold(format, plan).value;
      FoldKeepsOrder(format, plan);
      FinishSucceeds(s, s.order);
      forall i | 0 <= i < |plan|
        ensures plan[i].table in s.order && StateOf(s, plan[i].table).primaryKey == KeyAfter(plan, plan[i].table)
      {
        assert Touches(plan, plan[i].table);
        FoldKnowsKey(format, plan, plan[i].table);
      }
      forall name | name in s.order ensures exists i :: 0 <= i < |plan| && plan[i].table == name {
        assert Touches(plan, name);
      }
    }
  }

  // ---- the columns of a folded table ----

  /** The operation at `c` is the last create of the table. */
  predicate CreatesLast(ops: seq<Op>, table: string, c: nat) {
    && c < |ops| && ops[c].table == table && !ops[c].InsertRows?
    && forall j :: c < j < |ops| && ops[j].table == table ==> ops[j].InsertRows?
  }

  /** These are the columns and the key that a create declares; both columns of a link table are key
      columns and not nullable, and its key defaults to them. */
  predicate Declares(op: Op, columns: seq<Column>, pk: seq<string>) {
    match op
    case CreateTable(_, cs) => columns == cs && pk == PrimaryKeyColumns(cs)
    case CreateLinkTable(_, lc, lt, rc, rt, linkKey) =>
      columns == [Column(lc, lt, false, true), Column(rc, rt, false, true)] &&
      pk == (if linkKey == [] then [lc, rc] else linkKey)
    case InsertRows(_, _) => false
  }

  lemma {:induction false} AddRowsKeepsColumns(format: Json -> string, table: string, state: TableState,
                                               rows: seq<PlanRow>)
    requires AddRows(format, table, state, rows).Ok?
    ensures AddRows(format, table, state, rows).value.columns == state.columns
    decreases |rows|
  {
    if rows != [] {
      AddRowsKeepsColumns(format, table, state, rows[..|rows| - 1]);
    }
  }

  lemma {:induction false} FoldKnowsColumns(format: Json -> string, ops: seq<Op>, table: string, c: nat)
    requires Fold(format, ops).Ok? && CreatesLast(ops, table, c)
    ensures var state := StateOf(Fold(format, ops).value, table);
            Declares(ops[c], state.columns, state.primaryKey)
    decreases |ops|
  {
    if c < |ops| - 1 {
      var front, op := ops[..|ops| - 1], ops[|ops| - 1];
      assert forall j :: 0 <= j < |front| ==> front[j] == ops[j];
      FoldKnowsColumns(format, front, table, c);
      if op.table == table {
        var state := StateOf(Fold(format, front).value, table);
        AddRowsKeepsColumns(format, table, state, op.rows);
        AddRowsKeepsKey(format, table, state, op.rows);
      }
    }
  }

  /** A folded table has the columns and the key of its last create. */
  lemma TableHasItsLastCreate(format: Json -> string, plan: seq<Op>, i: nat, c: nat)
    requires FullSyncTables(format, plan).Ok? && i < |FullSyncTables(format, plan).value|
    requires CreatesLast(plan, FullSyncTables(format, plan).value[i].name, c)
    ensures var table := FullSyncTables(format, plan).value[i];
            Declares(plan[c], table.columns, table.primaryKey)
  {
    var s := Fold(format, plan).value;
    FoldKeepsOrder(format, plan);
    FinishLength(s, s.order);
    FinishAt(s, s.order, i);
    FoldKnowsColumns(format, plan, s.order[i], c);
  }
}
