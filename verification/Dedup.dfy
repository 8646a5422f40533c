/** Dropping repeated inserts: within one export the first row under a key wins. */
module Dedup {
  import opened Common
  import opened Plans
  import opened Literals

  datatype Kept = Kept(rows: seq<LiteralRow>, seen: set<string>)

  /** The dedup keys an export has seen for a table. */
  function SeenIn(seen: map<string, set<string>>, table: string): set<string> {
    if table in seen then seen[table] else {}
  }

  function Deduplicate(table: string, rows: seq<LiteralRow>, pk: seq<string>, seen: set<string>): Kept {
    if rows == [] then Kept([], seen)
    else
      var before := Deduplicate(table, rows[..|rows| - 1], pk, seen);
      var row := rows[|rows| - 1];
      match DedupKey(table, row, pk)
      case None => before.(rows := before.rows + [row])
      case Some(key) => if key in before.seen then before else Kept(before.rows + [row], before.seen + {key})
  }

  lemma OneMoreKept(table: string, rows: seq<LiteralRow>, row: LiteralRow, pk: seq<string>, seen: set<string>)
    ensures var before, key := Deduplicate(table, rows, pk, seen), DedupKey(table, row, pk);
            Deduplicate(table, rows + [row], pk, seen) ==
              if key.None? then before.(rows := before.rows + [row])
              else if key.value in before.seen then before
              else Kept(before.rows + [row], before.seen + {key.value})
  {
    assert (rows + [row])[..|rows|] == rows;
  }

  lemma {:induction false} DeduplicateConcat(table: string, a: seq<LiteralRow>, b: seq<LiteralRow>, pk: seq<string>,
                                             seen: set<string>)
    ensures var first := Deduplicate(table, a, pk, seen);
            var second := Deduplicate(table, b, pk, first.seen);
            Deduplicate(table, a + b, pk, seen) == Kept(first.rows + second.rows, second.seen)
    decreases |b|
  {
    if b == [] {
      assert a + b == a;
    } else {
      assert (a + b)[..|a + b| - 1] == a + b[..|b| - 1];
      DeduplicateConcat(table, a, b[..|b| - 1], pk, seen);
    }
  }

  /** Rows that have no key text are never dropped: those that lack a key column, and all rows of a
      table without a key. */
  lemma {:induction false} UnkeyedRowsStay(table: string, rows: seq<LiteralRow>, pk: seq<string>, seen: set<string>)
    ensures forall r :: r in rows && !CarriesAll(r, pk) ==> r in Deduplicate(table, rows, pk, seen).rows
    ensures pk == [] ==> Deduplicate(table, rows, pk, seen) == Kept(rows, seen)
    decreases |rows|
  {
    if rows != [] {
      UnkeyedRowsStay(table, rows[..|rows| - 1], pk, seen);
      assert rows == rows[..|rows| - 1] + [rows[|rows| - 1]];
    }
  }

  /** The key of a row; empty when the row lacks a key column. */
  function RowKey(row: LiteralRow, pk: seq<string>): seq<string> {
    if CarriesAll(row, pk) then KeyOf(row, pk) else []
  }

  /** The row carries the whole key, with no NULL in it. */
  predicate KeyedRow(row: LiteralRow, pk: seq<string>) {
    pk != [] && CarriesAll(row, pk) && "NULL" !in KeyOf(row, pk)
  }

  predicate Keyed(rows: seq<LiteralRow>, pk: seq<string>) {
    forall r :: r in rows ==> KeyedRow(r, pk)
  }

  /** A printed row with a value for every column of the table and for no other. */
  ghost predicate Complete(row: LiteralRow, columns: set<string>, pk: seq<string>) {
    KeyedRow(row, pk) && (forall c :: c in row.columns <==> c in columns) && |row.values| == |row.columns|
  }

  ghost predicate AllComplete(rows: seq<LiteralRow>, columns: set<string>, pk: seq<string>) {
    forall r :: r in rows ==> Complete(r, columns, pk)
  }

  function Keys(rows: seq<LiteralRow>, pk: seq<string>): set<seq<string>> {
    set r | r in rows :: RowKey(r, pk)
  }

  predicate DistinctKeys(rows: seq<LiteralRow>, pk: seq<string>) {
    forall i, j :: 0 <= i < j < |rows| ==> RowKey(rows[i], pk) != RowKey(rows[j], pk)
  }

  /** The row that stands for a key: the first one written under it. */
  function FirstUnder(rows: seq<LiteralRow>, pk: seq<string>, k: seq<string>): LiteralRow
    requires rows != []
  {
    var front, last := rows[..|rows| - 1], rows[|rows| - 1];
    if front != [] && k in Keys(front, pk) then FirstUnder(front, pk, k) else last
  }

  function Texts(table: string, rows: seq<LiteralRow>, pk: seq<string>): set<Option<string>> {
    set r | r in rows :: DedupKey(table, r, pk)
  }

  /** Keys compare as their joined texts do; `DedupKeyIsInjective` gives this for printed rows. */
  ghost predicate Faithful(table: string, rows: seq<LiteralRow>, pk: seq<string>) {
    forall a, b :: a in rows && b in rows ==>
      (DedupKey(table, a, pk) == DedupKey(table, b, pk) <==> RowKey(a, pk) == RowKey(b, pk))
  }

  lemma KeysExtend(rows: seq<LiteralRow>, pk: seq<string>, row: LiteralRow)
    ensures Keys(rows + [row], pk) == Keys(rows, pk) + {RowKey(row, pk)}
  {
  }

  /** What is kept: every key once, under the first row written for it. */
  ghost predicate FirstWins(rows: seq<LiteralRow>, pk: seq<string>, kept: seq<LiteralRow>) {
    && DistinctKeys(kept, pk)
    && Keys(kept, pk) == Keys(rows, pk)
    && (rows == [] ==> kept == [])
    && (forall r :: r in kept ==> r in rows && r == FirstUnder(rows, pk, RowKey(r, pk)))
  }

  lemma {:induction false} KeepsFirst(table: string, rows: seq<LiteralRow>, pk: seq<string>)
    requires Keyed(rows, pk) && Faithful(table, rows, pk)
    ensures var r := Deduplicate(table, rows, pk, {});
            FirstWins(rows, pk, r.rows) && (forall key :: key in r.seen <==> Some(key) in Texts(table, rows, pk))
    decreases |rows|
  {
    if rows != [] {
      var front, row := rows[..|rows| - 1], rows[|rows| - 1];
      assert rows == front + [row];
      assert row in rows;
      KeepsFirst(table, front, pk);
      var before := Deduplicate(table, front, pk, {});
      SeenMeansKey(table, front, row, pk);
      assert Texts(table, rows, pk) == Texts(table, front, pk) + {DedupKey(table, row, pk)};
      if DedupKey(table, row, pk).value in before.seen {
        DropRepeated(front, row, pk, before.rows);
      } else {
        AddFresh(front, row, pk, before.rows);
      }
    }
  }

  lemma SeenMeansKey(table: string, front: seq<LiteralRow>, row: LiteralRow, pk: seq<string>)
    requires Keyed(front + [row], pk) && Faithful(table, front + [row], pk)
    ensures DedupKey(table, row, pk).Some?
    ensures DedupKey(table, row, pk) in Texts(table, front, pk) <==> RowKey(row, pk) in Keys(front, pk)
  {
    assert row in front + [row];
    if DedupKey(table, row, pk) in Texts(table, front, pk) {
      var r :| r in front && DedupKey(table, r, pk) == DedupKey(table, row, pk);
      assert r in front + [row];
    }
    if RowKey(row, pk) in Keys(front, pk) {
      var r :| r in front && RowKey(r, pk) == RowKey(row, pk);
      assert r in front + [row];
    }
  }

  lemma FirstStays(front: seq<LiteralRow>, row: LiteralRow, pk: seq<string>, k: seq<string>)
    requires front != [] && k in Keys(front, pk)
    ensures FirstUnder(front + [row], pk, k) == FirstUnder(front, pk, k)
  {
    assert (front + [row])[..|front|] == front;
  }

  lemma DropRepeated(front: seq<LiteralRow>, row: LiteralRow, pk: seq<string>, kept: seq<LiteralRow>)
    requires FirstWins(front, pk, kept) && RowKey(row, pk) in Keys(front, pk)
    ensures FirstWins(front + [row], pk, kept)
  {
    KeysExtend(front, pk, row);
    forall r | r in kept ensures r == FirstUnder(front + [row], pk, RowKey(r, pk)) {
      FirstStays(front, row, pk, RowKey(r, pk));
    }
  }

  lemma AddFresh(front: seq<LiteralRow>, row: LiteralRow, pk: seq<string>, kept: seq<LiteralRow>)
    requires FirstWins(front, pk, kept) && RowKey(row, pk) !in Keys(front, pk)
    ensures FirstWins(front + [row], pk, kept + [row])
  {
    KeysExtend(front, pk, row);
    KeysExtend(kept, pk, row);
    assert (front + [row])[..|front|] == front;
    forall r | r in kept ensures r == FirstUnder(front + [row], pk, RowKey(r, pk)) {
      assert RowKey(r, pk) in Keys(front, pk);
      FirstStays(front, row, pk, RowKey(r, pk));
    }
    forall i | 0 <= i < |kept| ensures RowKey(kept[i], pk) != RowKey(row, pk) {
      assert kept[i] in kept && RowKey(kept[i], pk) in Keys(kept, pk);
    }
  }

  lemma {:induction false} KeptAreRows(table: string, rows: seq<LiteralRow>, pk: seq<string>, seen: set<string>)
    ensures forall r :: r in Deduplicate(table, rows, pk, seen).rows ==> r in rows
    decreases |rows|
  {
    if rows != [] {
      KeptAreRows(table, rows[..|rows| - 1], pk, seen);
    }
  }

  /** Rows printed by an adapter compare by key exactly as their dedup texts do. */
  lemma PrintedIsFaithful(d: Dialect, printer: Printer, table: string, pk: seq<string>, rows: seq<PlanRow>)
    requires PlainPrinter(printer) && pk != []
    requires forall r :: r in rows ==> PlainTypes(r) && CarriesAll(r, pk)
    ensures Faithful(table, PrintedAll(LiteralOf(d, printer), rows), pk)
  {
    var lit := LiteralOf(d, printer);
    var printed := PrintedAll(lit, rows);
    forall a, b | a in printed && b in printed
      ensures DedupKey(table, a, pk) == DedupKey(table, b, pk) <==> RowKey(a, pk) == RowKey(b, pk)
    {
      var i :| 0 <= i < |printed| && printed[i] == a;
      var j :| 0 <= j < |printed| && printed[j] == b;
      assert a == Printed(lit, rows[i]) && b == Printed(lit, rows[j]);
      DedupKeyIsInjective(d, printer, table, pk, rows[i], rows[j]);
    }
  }
}
