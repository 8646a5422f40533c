/** Programs follow their plans operation by operation: no create is lost or changed, and tables are
    created before they are written. */
module Creates {
  import opened Plans
  import opened Programs
  import opened Dedup
  import Pg = Postgres
  import PgExport = PostgresExport
  import Ch = ClickHouse
  import ChExport = ClickHouseExport
  import ChSync = ClickHouseFullSync

  /** What a dialect's statements are: which is the create statement of an operation, which are
      creates at all, and which table a statement is about. */
  datatype Dialect<!S> = Dialect(createOf: (Op, S) -> bool, isCreate: S -> bool, target: S -> string)

  /** The statements of one operation: its create statement, or statements about its table that
      create nothing. */
  predicate IsPiece<S>(d: Dialect<S>, op: Op, piece: seq<S>) {
    if op.InsertRows? then forall i :: 0 <= i < |piece| ==> !d.isCreate(piece[i]) && d.target(piece[i]) == op.table
    else |piece| == 1 && d.createOf(op, piece[0]) && d.isCreate(piece[0]) && d.target(piece[0]) == op.table
  }

  predicate ArePieces<S>(d: Dialect<S>, ops: seq<Op>, pieces: seq<seq<S>>) {
    |pieces| == |ops| && forall i :: 0 <= i < |ops| ==> IsPiece(d, ops[i], pieces[i])
  }

  function Concat<S>(pieces: seq<seq<S>>): seq<S> {
    if pieces == [] then [] else Concat(pieces[..|pieces| - 1]) + pieces[|pieces| - 1]
  }

  lemma OneMorePiece<S>(d: Dialect<S>, ops: seq<Op>, pieces: seq<seq<S>>, op: Op, piece: seq<S>)
    requires ArePieces(d, ops, pieces) && IsPiece(d, op, piece)
    ensures ArePieces(d, ops + [op], pieces + [piece]) && Concat(pieces + [piece]) == Concat(pieces) + piece
  {
    assert (pieces + [piece])[..|pieces + [piece]| - 1] == pieces;
  }

  // ---- created before written ----

  /** One of the first n operations creates the table. */
  predicate CreatedBy(plan: seq<Op>, n: nat, table: string)
    requires n <= |plan|
  {
    exists k: nat :: k < n && !plan[k].InsertRows? && plan[k].table == table
  }

  /** Every write of a table follows a create of it. */
  predicate CreatedBeforeWritten(plan: seq<Op>) {
    forall i: nat :: i < |plan| && plan[i].InsertRows? ==> CreatedBy(plan, i, plan[i].table)
  }

  lemma FrontIsCreatedBeforeWritten(plan: seq<Op>)
    requires plan != [] && CreatedBeforeWritten(plan)
    ensures CreatedBeforeWritten(plan[..|plan| - 1])
    ensures plan[|plan| - 1].InsertRows? ==> CreatedBy(plan[..|plan| - 1], |plan| - 1, plan[|plan| - 1].table)
  {
    var front := plan[..|plan| - 1];
    forall i: nat | i < |plan| && plan[i].InsertRows? ensures CreatedBy(front, i, plan[i].table) {
      assert CreatedBy(plan, i, plan[i].table);
      var k: nat :| k < i && !plan[k].InsertRows? && plan[k].table == plan[i].table;
      assert front[k] == plan[k];
    }
  }

  /** One of the first n statements creates the table. */
  predicate CreatedAmong<S>(d: Dialect<S>, stmts: seq<S>, n: nat, table: string)
    requires n <= |stmts|
  {
    exists i: nat :: i < n && d.isCreate(stmts[i]) && d.target(stmts[i]) == table
  }

  lemma {:induction false} CreateIsThere<S>(d: Dialect<S>, ops: seq<Op>, pieces: seq<seq<S>>, table: string)
    requires ArePieces(d, ops, pieces) && CreatedBy(ops, |ops|, table)
    ensures CreatedAmong(d, Concat(pieces), |Concat(pieces)|, table)
    decreases |ops|
  {
    var front, op := ops[..|ops| - 1], ops[|ops| - 1];
    var before := Concat(pieces[..|pieces| - 1]);
    assert IsPiece(d, op, pieces[|pieces| - 1]);
    if !op.InsertRows? && op.table == table {
      assert Concat(pieces)[|before|] == pieces[|pieces| - 1][0];
    } else {
      var k: nat :| k < |ops| && !ops[k].InsertRows? && ops[k].table == table;
      assert front[k] == ops[k];
      CreateIsThere(d, front, pieces[..|pieces| - 1], table);
      var i: nat :| i < |before| && d.isCreate(before[i]) && d.target(before[i]) == table;
      assert Concat(pieces)[i] == before[i];
    }
  }

  /** Every statement that is no create follows a create of its table. */
  predicate WrittenAfterCreated<S>(d: Dialect<S>, stmts: seq<S>) {
    forall j: nat :: j < |stmts| && !d.isCreate(stmts[j]) ==> CreatedAmong(d, stmts, j, d.target(stmts[j]))
  }

  lemma MoreWritten<S>(d: Dialect<S>, before: seq<S>, more: seq<S>)
    requires WrittenAfterCreated(d, before)
    requires forall i :: 0 <= i < |more| ==>
               d.isCreate(more[i]) || CreatedAmong(d, before, |before|, d.target(more[i]))
    ensures WrittenAfterCreated(d, before + more)
  {
    var all := before + more;
    forall j: nat | j < |all| && !d.isCreate(all[j]) ensures CreatedAmong(d, all, j, d.target(all[j])) {
      assert j >= |before| ==> all[j] == more[j - |before|];
      var n := if j < |before| then j else |before|;
      assert CreatedAmong(d, before, n, d.target(all[j]));
      var i: nat :| i < n && d.isCreate(before[i]) && d.target(before[i]) == d.target(all[j]);
      assert all[i] == before[i];
    }
  }

  lemma {:induction false} PiecesCreateFirst<S>(d: Dialect<S>, ops: seq<Op>, pieces: seq<seq<S>>)
    requires ArePieces(d, ops, pieces) && CreatedBeforeWritten(ops)
    ensures WrittenAfterCreated(d, Concat(pieces))
    decreases |ops|
  {
    if ops != [] {
      var n := |ops| - 1;
      FrontIsCreatedBeforeWritten(ops);
      assert IsPiece(d, ops[n], pieces[n]);
      PiecesCreateFirst(d, ops[..n], pieces[..n]);
      if ops[n].InsertRows? {
        CreateIsThere(d, ops[..n], pieces[..n], ops[n].table);
      }
      MoreWritten(d, Concat(pieces[..n]), pieces[n]);
    }
  }

  // ---- Postgres ----

  function PgDialect(): Dialect<Pg.Statement> {
    Dialect((op: Op, s: Pg.Statement) =>
              match op
              case CreateTable(table, columns) => s == Pg.Create(table, columns)
              case CreateLinkTable(table, lc, lt, rc, rt, linkKey) =>
                s == Pg.CreateLink(table, lc, lt, rc, rt, linkKey)
              case InsertRows(_, _) => false,
            (s: Pg.Statement) => s.Create? || s.CreateLink?, (s: Pg.Statement) => s.table)
  }

  lemma {:induction false} PgExportPieces(lit: Value -> string, pks: map<string, seq<string>>, ops: seq<Op>)
    returns (pieces: seq<seq<Pg.Statement>>)
    ensures ArePieces(PgDialect(), ops, pieces) && Concat(pieces) == PgExport.Exported(lit, pks, ops).lines
    decreases |ops|
  {
    if ops == [] {
      pieces := [];
    } else {
      var front, op := ops[..|ops| - 1], ops[|ops| - 1];
      var before := PgExportPieces(lit, pks, front);
      var piece := PgExport.Exported(lit, pks, ops).lines[|Concat(before)|..];
      OneMorePiece(PgDialect(), front, before, op, piece);
      assert ops == front + [op];
      pieces := before + [piece];
    }
  }

  /** A Postgres program is one piece for each operation of its plan, in order: the create statement
      of a create, upserts into the table of an insert. Upserts follow a create of their table if the
      plan's writes do. */
  lemma PostgresProgramPieces(lit: Value -> string, plan: seq<Op>) returns (pieces: seq<seq<Pg.Statement>>)
    ensures ArePieces(PgDialect(), plan, pieces) && Concat(pieces) == PgExport.Program(lit, plan)
    ensures CreatedBeforeWritten(plan) ==> WrittenAfterCreated(PgDialect(), PgExport.Program(lit, plan))
  {
    pieces := PgExportPieces(lit, PgExport.PrimaryKeysOf(plan), plan);
    if CreatedBeforeWritten(plan) {
      PiecesCreateFirst(PgDialect(), plan, pieces);
    }
  }

  // ---- ClickHouse ----

  function ChDialect(): Dialect<Ch.Statement> {
    Dialect((op: Op, s: Ch.Statement) =>
              match op
              case CreateTable(table, columns) => s == Ch.Create(table, columns)
              case CreateLinkTable(table, lc, lt, rc, rt, linkKey) =>
                s == Ch.CreateLink(table, lc, lt, rc, rt, linkKey)
              case InsertRows(_, _) => false,
            (s: Ch.Statement) => s.Create? || s.CreateLink?, (s: Ch.Statement) => s.table)
  }

  lemma {:induction false} ChExportPieces(lit: Value -> string, pks: map<string, seq<string>>, ops: seq<Op>)
    returns (pieces: seq<seq<Ch.Statement>>)
    ensures ArePieces(ChDialect(), ops, pieces) && Concat(pieces) == ChExport.Exported(lit, pks, ops).lines
    decreases |ops|
  {
    if ops == [] {
      pieces := [];
    } else {
      var front, op := ops[..|ops| - 1], ops[|ops| - 1];
      var before := ChExportPieces(lit, pks, front);
      var piece := ChExport.Exported(lit, pks, ops).lines[|Concat(before)|..];
      OneMorePiece(ChDialect(), front, before, op, piece);
      assert ops == front + [op];
      pieces := before + [piece];
    }
  }

  /** The same on ClickHouse, where the pieces of inserts hold deletes and inserts. */
  lemma ClickHouseProgramPieces(lit: Value -> string, plan: seq<Op>) returns (pieces: seq<seq<Ch.Statement>>)
    ensures ArePieces(ChDialect(), plan, pieces) && Concat(pieces) == ChExport.Program(lit, plan)
    ensures CreatedBeforeWritten(plan) ==> WrittenAfterCreated(ChDialect(), ChExport.Program(lit, plan))
  {
    pieces := ChExportPieces(lit, ChExport.PrimaryKeysOf(plan), plan);
    if CreatedBeforeWritten(plan) {
      PiecesCreateFirst(ChDialect(), plan, pieces);
    }
  }

  /** A full sync on ClickHouse creates every table first, as declared. */
  lemma FullSyncCreatesFirst(lit: Value -> string, tables: seq<FullSyncTable>, i: nat)
    requires i < |tables|
    ensures |ChSync.FullSyncProgram(lit, tables)| >= |tables|
    ensures ChSync.FullSyncProgram(lit, tables)[i] == Ch.Create(tables[i].name, tables[i].columns)
  {
    FlatSingles(tables, ChSync.Creates);
    assert [Flat(tables, ChSync.Creates)[i]] == ChSync.Creates(tables[i]);
    assert ChSync.Creates(tables[i])[0] == Ch.Create(tables[i].name, tables[i].columns);
  }
}
