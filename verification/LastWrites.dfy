/** Last write wins, said of the values in the key columns rather than of the text that joins them. */
module LastWrites {
  import opened Common
  import opened Plans
  import opened Literals
  import opened Dedup
  import opened FullSync
  import opened FullSyncSnapshot
  import opened Programs
  import opened TwoCompilers
  import Pg = Postgres
  import PgExport = PostgresExport
  import PgSync = PostgresFullSync
  import Ch = ClickHouse
  import ChExport = ClickHouseExport
  import ChSync = ClickHouseFullSync

  // ---- what the joined text tells ----

  /** Two cells print alike under `%v`; a typed array prints its items and its element type. */
  predicate PrintAlike(format: Json -> string, v: Value, w: Value) {
    match (v, w)
    case (Scalar(a), Scalar(b)) => format(a) == format(b)
    case (Array(a, s), Array(b, t)) => format(JArray(a)) + "|" + s == format(JArray(b)) + "|" + t
    case (Array(a, s), Scalar(b)) => format(JArray(a)) + "|" + s == format(b)
    case (Scalar(a), Array(b, t)) => format(a) == format(JArray(b)) + "|" + t
  }

  predicate SameKeyValues(format: Json -> string, r: PlanRow, s: PlanRow, pk: seq<string>)
    requires CarriesAll(r, pk) && CarriesAll(s, pk)
  {
    forall i :: 0 <= i < |pk| ==> PrintAlike(format, Field(r, pk[i]), Field(s, pk[i]))
  }

  /** A scalar that prints without a bar. */
  predicate PrintsNoBar(format: Json -> string, v: Value) {
    v.Scalar? && '|' !in format(v.scalar)
  }

  /** Every key value but the last prints without a bar; a key of one column always does. */
  predicate CutsClearly(format: Json -> string, row: PlanRow, pk: seq<string>)
    requires CarriesAll(row, pk)
  {
    forall i :: 0 <= i < |pk| - 1 ==> PrintsNoBar(format, Field(row, pk[i]))
  }

  lemma {:induction false} TailsTell(pk: seq<string>, a: seq<string>, b: seq<string>)
    requires |pk| == |a| == |b|
    requires forall i :: 0 <= i < |pk| - 1 ==> '|' !in a[i] && '|' !in b[i]
    requires Tail(pk, a) == Tail(pk, b)
    ensures a == b
    decreases |pk|
  {
    if pk != [] {
      var p := "|" + pk[0] + "=";
      var x, y := Tail(pk[1..], a[1..]), Tail(pk[1..], b[1..]);
      assert Tail(pk, a) == p + (a[0] + x) && Tail(pk, b) == p + (b[0] + y);
      assert a[0] + x == Tail(pk, a)[|p|..] == Tail(pk, b)[|p|..] == b[0] + y;
      if |pk| == 1 {
        assert a[0] + x == a[0] && b[0] + y == b[0];
      } else {
        CutAtFirstBar(a[0], x, b[0], y);
      }
      TailsTell(pk[1..], a[1..], b[1..]);
      assert a == [a[0]] + a[1..] && b == [b[0]] + b[1..];
    }
  }

  /** Rows of one table share a key text exactly when they agree in every key column. For a key of
      one column nothing is assumed. */
  lemma RowTextsTell(format: Json -> string, table: string, r: PlanRow, s: PlanRow, pk: seq<string>)
    requires pk != [] && CarriesAll(r, pk) && CarriesAll(s, pk)
    requires CutsClearly(format, r, pk) && CutsClearly(format, s, pk)
    ensures RowText(format, table, r, pk).Some? && RowText(format, table, s, pk).Some?
    ensures RowText(format, table, r, pk) == RowText(format, table, s, pk) <==> SameKeyValues(format, r, s, pk)
  {
    var text := ValueText(format);
    var p1, p2 := Printed(text, r), Printed(text, s);
    assert forall i :: 0 <= i < |pk| ==> Carries(r, pk[i]) && Carries(s, pk[i]);
    assert CarriesAll(p1, pk) && CarriesAll(p2, pk);
    var k1, k2 := KeyOf(p1, pk), KeyOf(p2, pk);
    assert forall i :: 0 <= i < |pk| ==> k1[i] == text(Field(r, pk[i])) && k2[i] == text(Field(s, pk[i]));
    assert k1 == k2 <==> SameKeyValues(format, r, s, pk);
    JoinIsTail(table, pk, k1);
    JoinIsTail(table, pk, k2);
    if RowText(format, table, r, pk) == RowText(format, table, s, pk) {
      assert Tail(pk, k1) == (table + Tail(pk, k1))[|table|..];
      assert Tail(pk, k2) == (table + Tail(pk, k2))[|table|..];
      TailsTell(pk, k1, k2);
    }
  }

  function TwoStrings(x: string, y: string): PlanRow {
    InsertRow(["a", "b"], [Scalar(JString(x)), Scalar(JString(y))])
  }

  lemma TextOfTwoStrings(format: Json -> string, table: string, x: string, y: string)
    requires forall s :: format(JString(s)) == s
    ensures CarriesAll(TwoStrings(x, y), ["a", "b"])
    ensures RowText(format, table, TwoStrings(x, y), ["a", "b"]) == Some(table + ("|a=" + x + "|b=" + y))
  {
    var pk, row := ["a", "b"], TwoStrings(x, y);
    assert IndexOf(pk, "a") == 0 && pk[1..] == ["b"] && IndexOf(["b"], "b") == 0 && IndexOf(pk, "b") == 1;
    assert Carries(row, "a") && Carries(row, "b");
    assert KeyOf(Printed(ValueText(format), row), pk) == [x, y];
    JoinIsTail(table, pk, [x, y]);
    assert [x, y][1..] == [y] && pk[1..][1..] == [] && Tail(["b"], [y]) == "|b=" + y;
    assert Tail(pk, [x, y]) == "|a=" + x + "|b=" + y;
  }

  /** With two key columns a bar in the first can make different keys one: the fold then keeps one
      of two rows. */
  lemma BarsMergeRows(format: Json -> string, table: string)
    requires forall s :: format(JString(s)) == s
    ensures var pk, r, s := ["a", "b"], TwoStrings("x|b=y", "z"), TwoStrings("x", "y|b=z");
            && CarriesAll(r, pk) && CarriesAll(s, pk) && !SameKeyValues(format, r, s, pk)
            && RowText(format, table, r, pk) == RowText(format, table, s, pk)
  {
    TextOfTwoStrings(format, table, "x|b=y", "z");
    TextOfTwoStrings(format, table, "x", "y|b=z");
    assert "|a=" + "x|b=y" + "|b=" + "z" == "|a=x|b=y|b=z" == "|a=" + "x" + "|b=" + "y|b=z";
    var r, s := TwoStrings("x|b=y", "z"), TwoStrings("x", "y|b=z");
    assert Field(r, "a") == Scalar(JString("x|b=y")) && Field(s, "a") == Scalar(JString("x"));
    assert |"x|b=y"| != |"x"|;
    assert !PrintAlike(format, Field(r, ["a", "b"][0]), Field(s, ["a", "b"][0]));
  }

  // ---- which writes survive ----

  /** No later row agrees with this one in every key column. */
  predicate Survives(format: Json -> string, written: seq<PlanRow>, pk: seq<string>, p: nat)
    requires p < |written| && forall r :: r in written ==> CarriesAll(r, pk)
  {
    forall q :: p < q < |written| ==> !SameKeyValues(format, written[p], written[q], pk)
  }

  predicate CarryKeys(written: seq<PlanRow>, pk: seq<string>) {
    forall r :: r in written ==> CarriesAll(r, pk)
  }

  predicate AllCutClearly(format: Json -> string, written: seq<PlanRow>, pk: seq<string>)
    requires CarryKeys(written, pk)
  {
    forall r :: r in written ==> CutsClearly(format, r, pk)
  }

  /** The positions of the writes that survive, each once. */
  ghost predicate AreSurvivors(format: Json -> string, written: seq<PlanRow>, pk: seq<string>, last: seq<nat>)
    requires CarryKeys(written, pk)
  {
    && (forall i, j :: 0 <= i < j < |last| ==> last[i] != last[j])
    && (forall p: nat :: p in last <==> p < |written| && Survives(format, written, pk, p))
  }

  lemma {:induction false} LastPosition(format: Json -> string, table: string, rows: seq<PlanRow>, pk: seq<string>,
                                        key: string) returns (p: nat)
    requires LastUnder(format, table, rows, pk, key).Some?
    ensures p < |rows| && rows[p] == LastUnder(format, table, rows, pk, key).value
    ensures RowText(format, table, rows[p], pk) == Some(key)
    ensures forall q :: p < q < |rows| ==> RowText(format, table, rows[q], pk) != Some(key)
    decreases |rows|
  {
    if RowText(format, table, rows[|rows| - 1], pk) == Some(key) {
      p := |rows| - 1;
    } else {
      p := LastPosition(format, table, rows[..|rows| - 1], pk, key);
    }
  }

  lemma {:induction false} WrittenHasLast(format: Json -> string, table: string, rows: seq<PlanRow>, pk: seq<string>,
                                          p: nat)
    requires p < |rows| && RowText(format, table, rows[p], pk).Some?
    ensures LastUnder(format, table, rows, pk, RowText(format, table, rows[p], pk).value).Some?
    decreases |rows|
  {
    if p < |rows| - 1 {
      WrittenHasLast(format, table, rows[..|rows| - 1], pk, p);
    }
  }

  /** The row at `p` is the last under its key text exactly when it survives. */
  lemma LastMeansSurvives(format: Json -> string, table: string, written: seq<PlanRow>, pk: seq<string>, p: nat)
    requires pk != [] && CarryKeys(written, pk) && AllCutClearly(format, written, pk) && p < |written|
    ensures RowText(format, table, written[p], pk).Some?
    ensures Survives(format, written, pk, p) <==>
            forall q :: p < q < |written| ==>
                          RowText(format, table, written[q], pk) != RowText(format, table, written[p], pk)
  {
    RowTextsTell(format, table, written[p], written[p], pk);
    forall q | p < q < |written|
      ensures SameKeyValues(format, written[p], written[q], pk) <==>
              RowText(format, table, written[q], pk) == RowText(format, table, written[p], pk)
    {
      RowTextsTell(format, table, written[p], written[q], pk);
    }
  }

  /** One position for each key. */
  lemma {:induction false} LastPositions(format: Json -> string, table: string, rows: seq<PlanRow>, pk: seq<string>,
                                         keys: seq<string>) returns (last: seq<nat>)
    requires forall j :: 0 <= j < |keys| ==> LastUnder(format, table, rows, pk, keys[j]).Some?
    ensures |last| == |keys|
    ensures forall j :: 0 <= j < |keys| ==> LastAt(format, table, rows, pk, keys[j], last[j])
    decreases |keys|
  {
    if keys == [] {
      last := [];
    } else {
      var front := LastPositions(format, table, rows, pk, keys[..|keys| - 1]);
      var p := LastPosition(format, table, rows, pk, keys[|keys| - 1]);
      last := front + [p];
    }
  }

  ghost predicate LastAt(format: Json -> string, table: string, rows: seq<PlanRow>, pk: seq<string>, key: string,
                         p: nat) {
    && p < |rows| && LastUnder(format, table, rows, pk, key) == Some(rows[p])
    && RowText(format, table, rows[p], pk) == Some(key)
    && forall q :: p < q < |rows| ==> RowText(format, table, rows[q], pk) != Some(key)
  }

  lemma PositionsAreSurvivors(format: Json -> string, table: string, written: seq<PlanRow>, pk: seq<string>,
                              keys: seq<string>, last: seq<nat>)
    requires pk != [] && CarryKeys(written, pk) && AllCutClearly(format, written, pk)
    requires SortedStrings(keys) && |last| == |keys|
    requires forall key :: key in keys <==> LastUnder(format, table, written, pk, key).Some?
    requires forall j :: 0 <= j < |keys| ==> LastAt(format, table, written, pk, keys[j], last[j])
    ensures AreSurvivors(format, written, pk, last)
  {
    forall i, j | 0 <= i < j < |last| ensures last[i] != last[j] {
      assert LastAt(format, table, written, pk, keys[i], last[i]);
      assert LastAt(format, table, written, pk, keys[j], last[j]);
    }
    forall p: nat ensures p in last <==> p < |written| && Survives(format, written, pk, p) {
      if p in last {
        var j :| 0 <= j < |last| && last[j] == p;
        assert LastAt(format, table, written, pk, keys[j], p);
        LastMeansSurvives(format, table, written, pk, p);
      }
      if p < |written| && Survives(format, written, pk, p) {
        LastMeansSurvives(format, table, written, pk, p);
        WrittenHasLast(format, table, written, pk, p);
        var key := RowText(format, table, written[p], pk).value;
        var j :| 0 <= j < |keys| && keys[j] == key;
        assert LastAt(format, table, written, pk, keys[j], last[j]);
      }
    }
  }

  /** Last write wins: the folded table holds, each once, exactly the written rows that no later
      row of the table agrees with in every key column, laid out in the table's columns. */
  lemma LatestWritesSurvive(format: Json -> string, plan: seq<Op>, i: nat, columns: seq<Column>, pk: seq<string>)
    returns (last: seq<nat>)
    requires FullSyncTables(format, plan).Ok? && i < |FullSyncTables(format, plan).value|
    requires OneSchema(plan, FullSyncTables(format, plan).value[i].name, columns, pk)
    requires var written := WritesTo(plan, FullSyncTables(format, plan).value[i].name);
             CarryKeys(written, pk) ==> AllCutClearly(format, written, pk)
    ensures var table := FullSyncTables(format, plan).value[i];
            var written := WritesTo(plan, table.name);
            && table.columns == columns && table.primaryKey == pk
            && CarryKeys(written, pk) && AreSurvivors(format, written, pk, last)
            && |table.rows| == |last|
            && forall j :: 0 <= j < |last| ==>
                 last[j] < |written| && table.rows[j] == NormalizeRow(written[last[j]], columns)
  {
    var table := FullSyncTables(format, plan).value[i];
    var written := WritesTo(plan, table.name);
    var keys := LastWriteWins(format, plan, i, columns, pk);
    forall r | r in written ensures CarriesAll(r, pk) {
      assert RowText(format, table.name, r, pk).Some?;
      forall c | 0 <= c < |pk| ensures Carries(r, pk[c]) {
        assert Carries(Printed(ValueText(format), r), pk[c]);
      }
    }
    last := LastPositions(format, table.name, written, pk, keys);
    PositionsAreSurvivors(format, table.name, written, pk, keys, last);
    forall j | 0 <= j < |last|
      ensures last[j] < |written| && table.rows[j] == NormalizeRow(written[last[j]], columns)
    {
      assert LastAt(format, table.name, written, pk, keys[j], last[j]);
    }
  }

  // ---- what the databases hold ----

  /** From plan to databases, by values: whatever both held before, after their full syncs each
      holds the surviving writes of the table and no other row; Postgres unless it refuses a
      create. */
  lemma BothHoldSurvivors(format: Json -> string, pgLit: Value -> string, chLit: Value -> string, plan: seq<Op>,
                          i: nat, pgDb: PgExport.Database, chDb: ChExport.Database)
    returns (last: seq<nat>)
    requires FullSyncTables(format, plan).Ok? && SoundPlan(format, pgLit, plan)
    requires i < |FullSyncTables(format, plan).value|
    requires var table := FullSyncTables(format, plan).value[i];
             PgSync.Conforms(TableIn(pgDb, Pg.EMPTY, table.name), PgSync.ColumnSet(table), table.primaryKey)
    requires var table := FullSyncTables(format, plan).value[i];
             var written := WritesTo(plan, table.name);
             CarryKeys(written, table.primaryKey) ==> AllCutClearly(format, written, table.primaryKey)
    ensures var tables := FullSyncTables(format, plan).value;
            var table := tables[i];
            var written := WritesTo(plan, table.name);
            var pg := TableIn(PgSync.Applied(pgLit, tables, pgDb), Pg.EMPTY, table.name);
            var ch := TableIn(ChExport.RunAll(chDb, ChSync.FullSyncProgram(chLit, tables)), Ch.EMPTY, table.name);
            && CarryKeys(written, table.primaryKey) && AreSurvivors(format, written, table.primaryKey, last)
            && |ch| == |last| && (PgSync.Creatable(tables, pgDb) ==> pg.loose == [] && |pg.keyed| == |last|)
            && forall j :: 0 <= j < |last| ==>
                 && last[j] < |written|
                 && var row := NormalizeRow(written[last[j]], table.columns);
                    && ch[j] == Cells(Printed(chLit, row))
                    && (PgSync.Creatable(tables, pgDb) ==>
                          && RowKey(Printed(pgLit, row), table.primaryKey) in pg.keyed
                          && pg.keyed[RowKey(Printed(pgLit, row), table.primaryKey)] == Cells(Printed(pgLit, row)))
  {
    var tables := FullSyncTables(format, plan).value;
    FoldedPlanIsWellFormed(format, pgLit, plan);
    FoldedTableIsSound(format, pgLit, plan, i);
    SameSnapshot(pgLit, chLit, tables, i, pgDb, chDb);
    last := LatestWritesSurvive(format, plan, i, tables[i].columns, tables[i].primaryKey);
  }
}
