/** The two full-sync compilers side by side. */
module TwoCompilers {
  import opened Common
  import opened Plans
  import opened Programs
  import opened Dedup
  import Pg = Postgres
  import PgExport = PostgresExport
  import PgSync = PostgresFullSync
  import Ch = ClickHouse
  import ChExport = ClickHouseExport
  import ChSync = ClickHouseFullSync

  lemma LastKeyIsNew(rows: seq<LiteralRow>, pk: seq<string>)
    requires rows != [] && DistinctKeys(rows, pk)
    ensures RowKey(rows[|rows| - 1], pk) !in Keys(rows[..|rows| - 1], pk)
  {
    var front, last := rows[..|rows| - 1], rows[|rows| - 1];
    forall r | r in front ensures RowKey(r, pk) != RowKey(last, pk) {
      var i :| 0 <= i < |front| && front[i] == r;
      assert rows[i] == r;
    }
  }

  lemma {:induction false} SnapshotSize(rows: seq<LiteralRow>, pk: seq<string>)
    requires DistinctKeys(rows, pk)
    ensures |PgSync.Snapshot(rows, pk)| == |rows|
    decreases |rows|
  {
    if rows != [] {
      var front := rows[..|rows| - 1];
      SnapshotSize(front, pk);
      PgSync.SnapshotKeys(front, pk);
      LastKeyIsNew(rows, pk);
    }
  }

  lemma {:induction false} SnapshotHolds(rows: seq<LiteralRow>, pk: seq<string>, i: nat)
    requires DistinctKeys(rows, pk) && i < |rows|
    ensures RowKey(rows[i], pk) in PgSync.Snapshot(rows, pk) &&
            PgSync.Snapshot(rows, pk)[RowKey(rows[i], pk)] == Cells(rows[i])
    decreases |rows|
  {
    var front := rows[..|rows| - 1];
    if i < |front| {
      assert front[i] == rows[i] && RowKey(rows[i], pk) != RowKey(rows[|rows| - 1], pk);
      SnapshotHolds(front, pk, i);
    }
  }

  /** One plan, one meaning: from any starting databases, and unless Postgres refuses a create, its
      upserts and deletes and ClickHouse's truncate and inserts end with one stored row for each
      planned row, holding its values under its key, and with nothing else. */
  lemma SameSnapshot(pgLit: Value -> string, chLit: Value -> string, tables: seq<FullSyncTable>, i: nat,
                     pgDb: PgExport.Database, chDb: ChExport.Database)
    requires PgSync.WellFormed(pgLit, tables) && i < |tables|
    requires DistinctKeys(PrintedAll(pgLit, tables[i].rows), tables[i].primaryKey)
    requires PgSync.Conforms(TableIn(pgDb, Pg.EMPTY, tables[i].name), PgSync.ColumnSet(tables[i]), tables[i].primaryKey)
    ensures var table := tables[i];
            var pg := TableIn(PgSync.Applied(pgLit, tables, pgDb), Pg.EMPTY, table.name);
            var ch := TableIn(ChExport.RunAll(chDb, ChSync.FullSyncProgram(chLit, tables)), Ch.EMPTY, table.name);
            && |ch| == |table.rows| && (PgSync.Creatable(tables, pgDb) ==> pg.loose == [] && |pg.keyed| == |table.rows|)
            && forall j :: 0 <= j < |table.rows| ==>
                 && ch[j] == Cells(Printed(chLit, table.rows[j]))
                 && (PgSync.Creatable(tables, pgDb) ==>
                       && RowKey(Printed(pgLit, table.rows[j]), table.primaryKey) in pg.keyed
                       && pg.keyed[RowKey(Printed(pgLit, table.rows[j]), table.primaryKey)] ==
                          Cells(Printed(pgLit, table.rows[j])))
  {
    var table := tables[i];
    var rows := PrintedAll(pgLit, table.rows);
    PgSync.FullSyncReachesSnapshot(pgLit, tables, pgDb, i);
    ChSync.FullSyncReachesSnapshot(chLit, tables, chDb, i);
    SnapshotSize(rows, table.primaryKey);
    forall j | 0 <= j < |rows| ensures RowKey(rows[j], table.primaryKey) in PgSync.Snapshot(rows, table.primaryKey)
      && PgSync.Snapshot(rows, table.primaryKey)[RowKey(rows[j], table.primaryKey)] == Cells(rows[j])
    {
      SnapshotHolds(rows, table.primaryKey, j);
    }
    assert forall j :: 0 <= j < |rows| ==> rows[j] == Printed(pgLit, table.rows[j]);
  }
}
