/** The ClickHouse adapter. Tables are bags: nothing stops two rows from sharing a key, so an
    insert of keyed rows is preceded by a delete of those keys, and a full sync truncates first. */
module ClickHouse {
  import opened Common
  import opened Plans
  import opened Programs
  import opened Dedup

  datatype Statement =
    | Create(table: string, columns: seq<Column>)
    | CreateLink(table: string, leftColumn: string, leftType: string, rightColumn: string, rightType: string,
                 linkKey: seq<string>)
    | Insert(table: string, row: LiteralRow)
    | DeleteWhere(table: string, pk: seq<string>, rows: seq<LiteralRow>)
    | Truncate(table: string)

  /** Rows in insertion order; the order has no meaning to the database. */
  type Table = seq<Row>

  const EMPTY: Table := []

  /** The comparison `column = literal` is true; with a NULL on either side it is unknown. */
  predicate Equals(a: string, b: string) {
    a != NULL && b != NULL && a == b
  }

  /** The delete condition of one row: all its key columns agree; "1 = 0" when it has none. */
  predicate Matches(stored: Row, row: LiteralRow, pk: seq<string>) {
    && (exists i :: 0 <= i < |pk| && Carries(row, pk[i]))
    && (forall i :: 0 <= i < |pk| && Carries(row, pk[i]) ==> Equals(At(stored, pk[i]), Field(row, pk[i])))
  }

  predicate Hit(stored: Row, rows: seq<LiteralRow>, pk: seq<string>) {
    exists r :: r in rows && Matches(stored, r, pk)
  }

  function Without(t: Table, pk: seq<string>, rows: seq<LiteralRow>): Table {
    if t == [] then []
    else
      var front := Without(t[..|t| - 1], pk, rows);
      if Hit(t[|t| - 1], rows, pk) then front else front + [t[|t| - 1]]
  }

  function Exec(t: Table, s: Statement): Table {
    match s
    case Create(_, _) => t
    case CreateLink(_, _, _, _, _, _) => t
    case Insert(_, row) => t + [Cells(row)]
    case DeleteWhere(_, pk, rows) => Without(t, pk, rows)
    case Truncate(_) => []
  }

  function TargetOf(s: Statement): string {
    s.table
  }

  function AllCells(rows: seq<LiteralRow>): seq<Row> {
    seq(|rows|, i requires 0 <= i < |rows| => Cells(rows[i]))
  }

  function Inserts(table: string, rows: seq<LiteralRow>): seq<Statement> {
    seq(|rows|, i requires 0 <= i < |rows| => Insert(table, rows[i]))
  }

  lemma {:induction false} InsertsRun(t: Table, table: string, rows: seq<LiteralRow>)
    ensures RunTable(Exec, t, Inserts(table, rows)) == t + AllCells(rows)
    decreases |rows|
  {
    if rows != [] {
      var all, front := Inserts(table, rows), rows[..|rows| - 1];
      assert all[..|all| - 1] == Inserts(table, front);
      InsertsRun(t, table, front);
      assert AllCells(rows) == AllCells(front) + [Cells(rows[|rows| - 1])];
    } else {
      assert t + AllCells(rows) == t;
    }
  }

  // ---- keys of stored rows ----

  /** The key a stored row has; NULL for a missing column. */
  function StoredKey(stored: Row, pk: seq<string>): seq<string> {
    seq(|pk|, i requires 0 <= i < |pk| => At(stored, pk[i]))
  }

  lemma CellsKey(row: LiteralRow, pk: seq<string>)
    requires CarriesAll(row, pk)
    ensures StoredKey(Cells(row), pk) == RowKey(row, pk)
  {
    forall i | 0 <= i < |pk| ensures At(Cells(row), pk[i]) == RowKey(row, pk)[i] {
      assert Carries(row, pk[i]);
    }
  }

  /** A keyed row's condition picks exactly the stored rows under its key. */
  lemma MatchesByKey(stored: Row, row: LiteralRow, pk: seq<string>)
    requires KeyedRow(row, pk)
    ensures Matches(stored, row, pk) <==> StoredKey(stored, pk) == RowKey(row, pk)
  {
    assert forall i :: 0 <= i < |pk| ==> Carries(row, pk[i]);
    assert Carries(row, pk[0]);
    var key := KeyOf(row, pk);
    assert forall i :: 0 <= i < |pk| ==> key[i] == Field(row, pk[i]) && key[i] != NULL;
    if Matches(stored, row, pk) {
      assert forall i :: 0 <= i < |pk| ==> StoredKey(stored, pk)[i] == key[i];
    } else {
      var i :| 0 <= i < |pk| && !Equals(At(stored, pk[i]), Field(row, pk[i]));
      assert StoredKey(stored, pk)[i] != key[i];
    }
  }

  lemma HitByKey(stored: Row, rows: seq<LiteralRow>, pk: seq<string>)
    requires Keyed(rows, pk)
    ensures Hit(stored, rows, pk) <==> StoredKey(stored, pk) in Keys(rows, pk)
  {
    forall r | r in rows ensures Matches(stored, r, pk) <==> StoredKey(stored, pk) == RowKey(r, pk) {
      MatchesByKey(stored, r, pk);
    }
  }

  /** The rows outside a set of keys, in order: what a delete of those keys leaves. */
  function Outside(t: Table, pk: seq<string>, keys: set<seq<string>>): Table {
    if t == [] then []
    else
      var front := Outside(t[..|t| - 1], pk, keys);
      if StoredKey(t[|t| - 1], pk) in keys then front else front + [t[|t| - 1]]
  }

  lemma {:induction false} WithoutIsOutside(t: Table, pk: seq<string>, rows: seq<LiteralRow>)
    requires Keyed(rows, pk)
    ensures Without(t, pk, rows) == Outside(t, pk, Keys(rows, pk))
    decreases |t|
  {
    if t != [] {
      WithoutIsOutside(t[..|t| - 1], pk, rows);
      HitByKey(t[|t| - 1], rows, pk);
    }
  }

  lemma {:induction false} OutsideConcat(a: Table, b: Table, pk: seq<string>, keys: set<seq<string>>)
    ensures Outside(a + b, pk, keys) == Outside(a, pk, keys) + Outside(b, pk, keys)
    decreases |b|
  {
    if b == [] {
      assert a + b == a;
    } else {
      assert (a + b)[..|a + b| - 1] == a + b[..|b| - 1];
      OutsideConcat(a, b[..|b| - 1], pk, keys);
    }
  }

  lemma {:induction false} OutsideTwice(t: Table, pk: seq<string>, first: set<seq<string>>, second: set<seq<string>>)
    ensures Outside(Outside(t, pk, first), pk, second) == Outside(t, pk, first + second)
    decreases |t|
  {
    if t != [] {
      var front, last := t[..|t| - 1], t[|t| - 1];
      OutsideTwice(front, pk, first, second);
      if StoredKey(last, pk) !in first {
        var kept := Outside(front, pk, first) + [last];
        assert kept[..|kept| - 1] == Outside(front, pk, first);
      }
    }
  }

  lemma {:induction false} CellsOutside(rows: seq<LiteralRow>, pk: seq<string>, keys: set<seq<string>>)
    requires Keyed(rows, pk)
    ensures Keys(rows, pk) !! keys ==> Outside(AllCells(rows), pk, keys) == AllCells(rows)
    ensures Keys(rows, pk) <= keys ==> Outside(AllCells(rows), pk, keys) == []
    decreases |rows|
  {
    if rows != [] {
      var front, last := rows[..|rows| - 1], rows[|rows| - 1];
      assert rows == front + [last];
      assert last in rows;
      CellsOutside(front, pk, keys);
      KeysExtend(front, pk, last);
      CellsKey(last, pk);
      var all := AllCells(rows);
      assert all[..|all| - 1] == AllCells(front) && all[|all| - 1] == Cells(last);
    }
  }

  lemma KeysConcat(a: seq<LiteralRow>, b: seq<LiteralRow>, pk: seq<string>)
    ensures Keys(a + b, pk) == Keys(a, pk) + Keys(b, pk)
  {
  }

  lemma AllCellsConcat(a: seq<LiteralRow>, b: seq<LiteralRow>)
    ensures AllCells(a + b) == AllCells(a) + AllCells(b)
  {
  }

  /** The table in which exactly the given rows stand under their keys. */
  function Replaced(t: Table, pk: seq<string>, rows: seq<LiteralRow>): Table {
    Outside(t, pk, Keys(rows, pk)) + AllCells(rows)
  }

  lemma Associates(a: Table, b: Table, c: Table)
    ensures (a + b) + c == a + (b + c)
  {
  }

  /** Replacing some keys and then others is replacing both at once, when no key repeats. */
  lemma ReplaceMore(t: Table, pk: seq<string>, first: seq<LiteralRow>, second: seq<LiteralRow>)
    requires Keyed(first, pk) && Keyed(second, pk) && Keys(first, pk) !! Keys(second, pk)
    ensures Replaced(Replaced(t, pk, first), pk, second) == Replaced(t, pk, first + second)
  {
    var k1, k2 := Keys(first, pk), Keys(second, pk);
    OutsideConcat(Outside(t, pk, k1), AllCells(first), pk, k2);
    OutsideTwice(t, pk, k1, k2);
    CellsOutside(first, pk, k2);
    KeysConcat(first, second, pk);
    AllCellsConcat(first, second);
    Associates(Outside(t, pk, k1 + k2), AllCells(first), AllCells(second));
  }

  // ---- statements that only concern some keys ----

  /** A statement that inserts or deletes nothing outside the keys. */
  predicate Within(s: Statement, pk: seq<string>, keys: set<seq<string>>) {
    match s
    case Create(_, _) => true
    case CreateLink(_, _, _, _, _, _) => true
    case Insert(_, row) => KeyedRow(row, pk) && RowKey(row, pk) in keys
    case DeleteWhere(_, pk', rows) => pk' == pk && Keyed(rows, pk) && Keys(rows, pk) <= keys
    case Truncate(_) => false
  }

  /** Such statements leave every other row in place. */
  lemma {:induction false} WithinKeepsOutside(t: Table, stmts: seq<Statement>, pk: seq<string>, keys: set<seq<string>>)
    requires forall s :: s in stmts ==> Within(s, pk, keys)
    ensures Outside(RunTable(Exec, t, stmts), pk, keys) == Outside(t, pk, keys)
    decreases |stmts|
  {
    if stmts != [] {
      var front, s := stmts[..|stmts| - 1], stmts[|stmts| - 1];
      var mid := RunTable(Exec, t, front);
      WithinKeepsOutside(t, front, pk, keys);
      assert Within(s, pk, keys);
      match s
      case Insert(_, row) =>
        CellsKey(row, pk);
        assert (mid + [Cells(row)])[..|mid|] == mid;
      case DeleteWhere(_, _, rows) =>
        WithoutIsOutside(mid, pk, rows);
        OutsideTwice(mid, pk, Keys(rows, pk), keys);
        assert Keys(rows, pk) + keys == keys;
      case _ =>
    }
  }
}
