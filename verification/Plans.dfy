/** Migration plans: what the planner hands to a database adapter. */
module Plans {
  import opened Common

  /** A cell of a planned row; `Array` is a typed array of keys. */
  datatype Value = Scalar(scalar: Json) | Array(items: seq<Json>, elementType: string)

  datatype Column = Column(name: string, sqlType: string, nullable: bool, primaryKey: bool)

  /** A row as parallel lists. `V` is `Value` in a plan and the printed literal in a statement. */
  datatype InsertRow<V> = InsertRow(columns: seq<string>, values: seq<V>)

  type PlanRow = InsertRow<Value>
  type LiteralRow = InsertRow<string>

  /** `C` holds the columns of a created table: a shared array while flags may still change, a
      sequence once the plan is read only. */
  datatype Operation<C> =
    | CreateTable(table: string, columns: C)
    | CreateLinkTable(table: string, leftColumn: string, leftType: string,
                      rightColumn: string, rightType: string, linkKey: seq<string>)
    | InsertRows(table: string, rows: seq<PlanRow>)

  type Op = Operation<seq<Column>>

  datatype FullSyncTable = FullSyncTable(name: string, columns: seq<Column>, primaryKey: seq<string>,
                                         rows: seq<PlanRow>)

  /** The first position of a column, or -1. */
  function IndexOf(columns: seq<string>, name: string): (i: int)
    ensures -1 <= i < |columns|
    ensures i >= 0 ==> columns[i] == name && name !in columns[..i]
    ensures i == -1 <==> name !in columns
  {
    if columns == [] then -1
    else if columns[0] == name then 0
    else
      var rest := IndexOf(columns[1..], name);
      assert rest >= 0 ==> columns[..rest + 1] == [columns[0]] + columns[1..][..rest];
      if rest < 0 then -1 else rest + 1
  }

  /** The row gives a value for the column. */
  predicate Carries<V>(row: InsertRow<V>, name: string) {
    0 <= IndexOf(row.columns, name) < |row.values|
  }

  function Field<V>(row: InsertRow<V>, name: string): V
    requires Carries(row, name)
  {
    row.values[IndexOf(row.columns, name)]
  }

  predicate CarriesAll<V>(row: InsertRow<V>, names: seq<string>) {
    forall i :: 0 <= i < |names| ==> Carries(row, names[i])
  }

  /** The key of a row: its values in the primary-key columns. */
  function KeyOf<V>(row: InsertRow<V>, pk: seq<string>): seq<V>
    requires CarriesAll(row, pk)
  {
    seq(|pk|, i requires 0 <= i < |pk| => Field(row, pk[i]))
  }

  /** The row with every value printed as a literal. */
  function Printed(lit: Value -> string, row: PlanRow): LiteralRow {
    InsertRow(row.columns, seq(|row.values|, i requires 0 <= i < |row.values| => lit(row.values[i])))
  }

  function PrintedAll(lit: Value -> string, rows: seq<PlanRow>): seq<LiteralRow> {
    seq(|rows|, i requires 0 <= i < |rows| => Printed(lit, rows[i]))
  }

  // ---- rows as a database stores them ----

  /** Column to literal; a missing column holds NULL. */
  type Row = map<string, string>

  const NULL := "NULL"

  function Cells(row: LiteralRow): Row {
    map c | c in row.columns && Carries(row, c) :: Field(row, c)
  }

  function At(row: Row, column: string): string {
    if column in row then row[column] else NULL
  }

  function Names(columns: seq<Column>): seq<string> {
    seq(|columns|, i requires 0 <= i < |columns| => columns[i].name)
  }

  function PrimaryKeyColumns(columns: seq<Column>): seq<string> {
    if columns == [] then []
    else
      var front := PrimaryKeyColumns(columns[..|columns| - 1]);
      var last := columns[|columns| - 1];
      if last.primaryKey then front + [last.name] else front
  }

  lemma {:induction false} PrimaryKeyColumnsAre(columns: seq<Column>, name: string)
    ensures name in PrimaryKeyColumns(columns) <==>
            exists i :: 0 <= i < |columns| && columns[i].primaryKey && columns[i].name == name
    decreases |columns|
  {
    if columns != [] {
      PrimaryKeyColumnsAre(columns[..|columns| - 1], name);
    }
  }

  /** The positions are those of the key columns, in order. */
  predicate KeyPositions(columns: seq<Column>, at: seq<nat>) {
    && (forall i, j :: 0 <= i < j < |at| ==> at[i] < at[j])
    && (forall i :: 0 <= i < |at| ==> at[i] < |columns| && columns[at[i]].primaryKey)
    && (forall p: nat :: p < |columns| && columns[p].primaryKey ==> p in at)
  }

  predicate NamesAt(columns: seq<Column>, at: seq<nat>, names: seq<string>) {
    |names| == |at| && forall i :: 0 <= i < |at| ==> at[i] < |columns| && names[i] == columns[at[i]].name
  }

  lemma OneMorePosition(columns: seq<Column>, last: Column, at: seq<nat>, names: seq<string>)
    requires KeyPositions(columns, at) && NamesAt(columns, at, names)
    ensures last.primaryKey ==> KeyPositions(columns + [last], at + [|columns|])
    ensures last.primaryKey ==> NamesAt(columns + [last], at + [|columns|], names + [last.name])
    ensures !last.primaryKey ==> KeyPositions(columns + [last], at) && NamesAt(columns + [last], at, names)
  {
    var all, more := columns + [last], at + [|columns|];
    forall p: nat | p < |all| && all[p].primaryKey ensures if p < |columns| then p in at else p in more {
      if p < |columns| {
        assert columns[p].primaryKey;
      } else {
        assert more[|at|] == p;
      }
    }
  }

  /** The primary key lists the key columns in the order of the table. */
  lemma {:induction false} PrimaryKeyKeepsOrder(columns: seq<Column>) returns (at: seq<nat>)
    ensures KeyPositions(columns, at) && NamesAt(columns, at, PrimaryKeyColumns(columns))
    decreases |columns|
  {
    at := [];
    if columns != [] {
      var front, last := columns[..|columns| - 1], columns[|columns| - 1];
      var before := PrimaryKeyKeepsOrder(front);
      OneMorePosition(front, last, before, PrimaryKeyColumns(front));
      assert front + [last] == columns;
      at := if last.primaryKey then before + [|front|] else before;
    }
  }

  /** The key columns an export has collected for a table; none for a table it does not know. */
  function PkFor(pks: map<string, seq<string>>, table: string): seq<string> {
    if table in pks then pks[table] else []
  }

  predicate IsNull(v: Value) {
    v == Scalar(JNull)
  }

  /** The rows a plan writes to a table, in order. */
  function WritesTo(ops: seq<Op>, table: string): seq<PlanRow> {
    if ops == [] then []
    else
      var front, last := WritesTo(ops[..|ops| - 1], table), ops[|ops| - 1];
      if last.InsertRows? && last.table == table then front + last.rows else front
  }

  lemma PrintedAllConcat(lit: Value -> string, a: seq<PlanRow>, b: seq<PlanRow>)
    ensures PrintedAll(lit, a + b) == PrintedAll(lit, a) + PrintedAll(lit, b)
  {
  }
}
