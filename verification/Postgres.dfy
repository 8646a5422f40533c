/** The Postgres adapter: a migration plan becomes upserts, a full sync becomes upserts followed
    by deletes of what is missing. Cells are the literals the adapter prints; the database is
    taken to identify values exactly when their literals agree. */
module Postgres {
  import opened Common
  import opened Plans
  import opened Programs
  import opened Dedup

  datatype Statement =
    | Create(table: string, columns: seq<Column>)
    | CreateLink(table: string, leftColumn: string, leftType: string, rightColumn: string, rightType: string,
                 linkKey: seq<string>)
    | Upsert(table: string, pk: seq<string>, row: LiteralRow)
    | DeleteExcept(table: string, keep: seq<LiteralRow>)

  /** A table with a primary key maps keys to rows; a table without one is a bag. */
  datatype Table = Table(keyed: map<seq<string>, Row>, loose: seq<Row>)

  const EMPTY := Table(map[], [])

  // ---- what statements do ----

  /** The `SET` part of an upsert: every column but the key. */
  function Updates(row: LiteralRow, pk: seq<string>): Row {
    map c | c in row.columns && Carries(row, c) && c !in pk :: Field(row, c)
  }

  /** The comparison `column = literal` is false; with a NULL on either side it is unknown. */
  predicate Differs(a: string, b: string) {
    a != NULL && b != NULL && a != b
  }

  /** `WHERE NOT (k1 OR k2 ...)` holds of a row when every conjunction `k` is false of it. With no
      conjunction the clause is left out, and every row goes. */
  predicate Deleted(row: Row, keep: seq<LiteralRow>) {
    forall k :: k in keep ==> exists c :: c in k.columns && Carries(k, c) && Differs(At(row, c), Field(k, c))
  }

  function Kept(rows: seq<Row>, keep: seq<LiteralRow>): seq<Row> {
    if rows == [] then []
    else
      var front := Kept(rows[..|rows| - 1], keep);
      if Deleted(rows[|rows| - 1], keep) then front else front + [rows[|rows| - 1]]
  }

  function Put(t: Table, pk: seq<string>, row: LiteralRow): Table {
    if pk == [] then t.(loose := t.loose + [Cells(row)])
    else if !CarriesAll(row, pk) then t
    else
      var k := KeyOf(row, pk);
      t.(keyed := t.keyed[k := if k in t.keyed then t.keyed[k] + Updates(row, pk) else Cells(row)])
  }

  function Exec(t: Table, s: Statement): Table {
    match s
    case Create(_, _) => t
    case CreateLink(_, _, _, _, _, _) => t
    case Upsert(_, pk, row) => Put(t, pk, row)
    case DeleteExcept(_, keep) =>
      Table(map k | k in t.keyed && !Deleted(t.keyed[k], keep) :: t.keyed[k], Kept(t.loose, keep))
  }

  function TargetOf(s: Statement): string {
    s.table
  }

  function PutAll(t: Table, pk: seq<string>, rows: seq<LiteralRow>): Table {
    if rows == [] then t else Put(PutAll(t, pk, rows[..|rows| - 1]), pk, rows[|rows| - 1])
  }

  // ---- upserts on one table, in closed form ----

  function KeyCells(pk: seq<string>, k: seq<string>): Row {
    map c | c in pk && IndexOf(pk, c) < |k| :: k[IndexOf(pk, c)]
  }

  /** The last value set for each column by the rows under a key. */
  function Merged(rows: seq<LiteralRow>, pk: seq<string>, k: seq<string>): Row {
    if rows == [] then map[]
    else
      var front, last := Merged(rows[..|rows| - 1], pk, k), rows[|rows| - 1];
      if RowKey(last, pk) == k then front + Updates(last, pk) else front
  }

  lemma CellsSplit(row: LiteralRow, pk: seq<string>)
    requires KeyedRow(row, pk)
    ensures Cells(row) == KeyCells(pk, KeyOf(row, pk)) + Updates(row, pk)
  {
    var k := KeyOf(row, pk);
    forall c | c in pk ensures c in Cells(row) && Cells(row)[c] == KeyCells(pk, k)[c] {
      var i := IndexOf(pk, c);
      assert Carries(row, pk[i]) && k[i] == Field(row, c);
    }
  }

  function Look(t: Table, k: seq<string>): Option<Row> {
    if k in t.keyed then Some(t.keyed[k]) else None
  }

  function Base(prior: Option<Row>, pk: seq<string>, k: seq<string>): Row {
    if prior.Some? then prior.value else KeyCells(pk, k)
  }

  /** Inserted or updated, the row under the key is what was there, or the key columns alone,
      overlaid with the values set. */
  lemma PutStep(t: Table, pk: seq<string>, row: LiteralRow, k: seq<string>)
    requires KeyedRow(row, pk)
    ensures Put(t, pk, row).loose == t.loose
    ensures Look(Put(t, pk, row), k) == if RowKey(row, pk) == k then Some(Base(Look(t, k), pk, k) + Updates(row, pk))
            else Look(t, k)
  {
    CellsSplit(row, pk);
  }

  /** What upserts make of the row under one key. */
  function Written(prior: Option<Row>, rows: seq<LiteralRow>, pk: seq<string>, k: seq<string>): Option<Row> {
    if k in Keys(rows, pk) then Some(Base(prior, pk, k) + Merged(rows, pk, k)) else prior
  }

  lemma {:induction false} MergedUntouched(rows: seq<LiteralRow>, pk: seq<string>, k: seq<string>)
    requires k !in Keys(rows, pk)
    ensures Merged(rows, pk, k) == map[]
    decreases |rows|
  {
    if rows != [] {
      assert rows == rows[..|rows| - 1] + [rows[|rows| - 1]];
      KeysExtend(rows[..|rows| - 1], pk, rows[|rows| - 1]);
      MergedUntouched(rows[..|rows| - 1], pk, k);
    }
  }

  lemma OverlayAssociates(a: Row, b: Row, c: Row)
    ensures (a + b) + c == a + (b + c)
  {
  }

  lemma OverlayEmpty(a: Row)
    ensures a + map[] == a && map[] + a == a
  {
  }

  lemma OverlayAbsorbs(a: Row, b: Row, c: Row)
    requires b.Keys <= c.Keys
    ensures (a + b) + c == a + c
  {
  }

  lemma WrittenStep(prior: Option<Row>, front: seq<LiteralRow>, last: LiteralRow, pk: seq<string>, k: seq<string>)
    ensures Written(prior, front + [last], pk, k) ==
              if RowKey(last, pk) == k then Some(Base(Written(prior, front, pk, k), pk, k) + Updates(last, pk))
                 else Written(prior, front, pk, k)
  {
    KeysExtend(front, pk, last);
    assert (front + [last])[..|front|] == front;
    if RowKey(last, pk) == k {
      if k in Keys(front, pk) {
        OverlayAssociates(Base(prior, pk, k), Merged(front, pk, k), Updates(last, pk));
      } else {
        MergedUntouched(front, pk, k);
        OverlayEmpty(Updates(last, pk));
      }
    }
  }

  /** A whole list of upserts: each column of a written key holds the last value set for it; a
      key that was not written is as before. */
  lemma {:induction false} PutAllClosed(t: Table, pk: seq<string>, rows: seq<LiteralRow>, k: seq<string>)
    requires Keyed(rows, pk)
    ensures PutAll(t, pk, rows).loose == t.loose
    ensures Look(PutAll(t, pk, rows), k) == Written(Look(t, k), rows, pk, k)
    decreases |rows|
  {
    if rows != [] {
      var front, last := rows[..|rows| - 1], rows[|rows| - 1];
      assert rows == front + [last] && last in rows;
      PutAllClosed(t, pk, front, k);
      PutStep(PutAll(t, pk, front), pk, last, k);
      WrittenStep(Look(t, k), front, last, pk, k);
    }
  }

  lemma {:induction false} MergedColumns(rows: seq<LiteralRow>, pk: seq<string>, k: seq<string>, r: LiteralRow)
    requires r in rows && RowKey(r, pk) == k
    ensures Updates(r, pk).Keys <= Merged(rows, pk, k).Keys
    decreases |rows|
  {
    var front, last := rows[..|rows| - 1], rows[|rows| - 1];
    assert rows == front + [last];
    if r in front {
      MergedColumns(front, pk, k, r);
    }
  }

  lemma {:induction false} MergedWithin(attempts: seq<LiteralRow>, rows: seq<LiteralRow>, pk: seq<string>,
                                        k: seq<string>)
    requires forall r :: r in attempts ==> r in rows
    ensures Merged(attempts, pk, k).Keys <= Merged(rows, pk, k).Keys
    decreases |attempts|
  {
    if attempts != [] {
      var front, last := attempts[..|attempts| - 1], attempts[|attempts| - 1];
      MergedWithin(front, rows, pk, k);
      if RowKey(last, pk) == k {
        MergedColumns(rows, pk, k, last);
      }
    }
  }

  lemma WrittenAbsorbs(prior: Option<Row>, attempts: seq<LiteralRow>, rows: seq<LiteralRow>, pk: seq<string>,
                       k: seq<string>)
    requires forall r :: r in attempts ==> r in rows
    ensures Written(Written(prior, attempts, pk, k), rows, pk, k) == Written(prior, rows, pk, k)
  {
    if k in Keys(attempts, pk) {
      MergedWithin(attempts, rows, pk, k);
      OverlayAbsorbs(Base(prior, pk, k), Merged(attempts, pk, k), Merged(rows, pk, k));
    }
  }

  lemma SameTable(a: Table, b: Table)
    requires a.loose == b.loose && forall k :: Look(a, k) == Look(b, k)
    ensures a == b
  {
    assert forall k :: k in a.keyed <==> Look(a, k).Some?;
    assert forall k :: k in b.keyed <==> Look(b, k).Some?;
    assert forall k :: k in a.keyed ==> Some(a.keyed[k]) == Look(a, k) == Look(b, k) == Some(b.keyed[k]);
    assert a.keyed == b.keyed;
  }

  /** Upserts absorb earlier attempts: whatever upserts drawn from a list ran before, running the
      whole list ends as running it once. */
  lemma PutAllAbsorbs(t: Table, pk: seq<string>, attempts: seq<LiteralRow>, rows: seq<LiteralRow>)
    requires Keyed(rows, pk) && forall r :: r in attempts ==> r in rows
    ensures PutAll(PutAll(t, pk, attempts), pk, rows) == PutAll(t, pk, rows)
  {
    var mid := PutAll(t, pk, attempts);
    forall k ensures Look(PutAll(mid, pk, rows), k) == Look(PutAll(t, pk, rows), k) {
      PutAllClosed(t, pk, attempts, k);
      PutAllClosed(mid, pk, rows, k);
      PutAllClosed(t, pk, rows, k);
      WrittenAbsorbs(Look(t, k), attempts, rows, pk, k);
    }
    PutAllClosed(t, pk, attempts, []);
    PutAllClosed(mid, pk, rows, []);
    PutAllClosed(t, pk, rows, []);
    SameTable(PutAll(mid, pk, rows), PutAll(t, pk, rows));
  }

  // ---- attempts of other rows ----

  lemma OverlaidTwice(base: Row, first: Row, second: Row)
    ensures base + first + second == base + second <==>
              forall c :: c in first ==> c in second || (c in base && base[c] == first[c])
  {
    var with, without := base + first + second, base + second;
    if with == without {
      forall c | c in first && c !in second ensures c in base && base[c] == first[c] {
        assert c in with;
      }
    }
    if forall c :: c in first ==> c in second || (c in base && base[c] == first[c]) {
      assert with.Keys == without.Keys;
    }
  }

  /** What the attempts set under the key is set again by the rows, or was there before. */
  ghost predicate Covered(prior: Option<Row>, attempts: seq<LiteralRow>, rows: seq<LiteralRow>, pk: seq<string>,
                          k: seq<string>) {
    && (k in Keys(rows, pk) || prior.Some?)
    && var base, written, again := Base(prior, pk, k), Merged(attempts, pk, k), Merged(rows, pk, k);
       forall c :: c in written ==> c in again || (c in base && base[c] == written[c])
  }

  lemma WrittenTrace(prior: Option<Row>, attempts: seq<LiteralRow>, rows: seq<LiteralRow>, pk: seq<string>,
                     k: seq<string>)
    ensures Written(Written(prior, attempts, pk, k), rows, pk, k) == Written(prior, rows, pk, k) <==>
              (k in Keys(attempts, pk) ==> Covered(prior, attempts, rows, pk, k))
  {
    if k in Keys(attempts, pk) {
      var base := Base(prior, pk, k);
      OverlaidTwice(base, Merged(attempts, pk, k), Merged(rows, pk, k));
      if k !in Keys(rows, pk) {
        MergedUntouched(rows, pk, k);
        OverlayEmpty(base);
        OverlayEmpty(base + Merged(attempts, pk, k));
      }
    }
  }

  /** Attempted upserts leave no trace under later ones exactly when, key by key, every column they
      set is set again or held the same value before. */
  lemma TraceOfUpserts(t: Table, pk: seq<string>, attempts: seq<LiteralRow>, rows: seq<LiteralRow>)
    requires Keyed(attempts, pk) && Keyed(rows, pk)
    ensures PutAll(PutAll(t, pk, attempts), pk, rows) == PutAll(t, pk, rows) <==>
              forall k :: k in Keys(attempts, pk) ==> Covered(Look(t, k), attempts, rows, pk, k)
  {
    var mid := PutAll(t, pk, attempts);
    var both, alone := PutAll(mid, pk, rows), PutAll(t, pk, rows);
    forall k
      ensures Look(both, k) == Look(alone, k) <==>
                (k in Keys(attempts, pk) ==> Covered(Look(t, k), attempts, rows, pk, k))
    {
      PutAllClosed(t, pk, attempts, k);
      PutAllClosed(mid, pk, rows, k);
      PutAllClosed(t, pk, rows, k);
      WrittenTrace(Look(t, k), attempts, rows, pk, k);
    }
    PutAllClosed(t, pk, attempts, []);
    PutAllClosed(mid, pk, rows, []);
    PutAllClosed(t, pk, rows, []);
    if forall k :: k in Keys(attempts, pk) ==> Covered(Look(t, k), attempts, rows, pk, k) {
      SameTable(both, alone);
    }
    if both == alone {
      assert forall k :: Look(both, k) == Look(alone, k);
    }
  }
}
