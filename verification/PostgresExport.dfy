/** Turning plans into Postgres statements, and what the resulting programs do to a database. */
module PostgresExport {
  import opened Common
  import opened Plans
  import opened Programs
  import opened Dedup
  import opened Postgres

  type Database = map<string, Table>

  ghost function RunAll(db: Database, stmts: seq<Statement>): Database {
    Run(Exec, TargetOf, EMPTY, db, stmts)
  }

  // ---- migration plans ----

  function AddPrimaryKey(pks: map<string, seq<string>>, op: Op): map<string, seq<string>> {
    match op
    case CreateTable(t, columns) => pks[t := PkFor(pks, t) + PrimaryKeyColumns(columns)]
    case CreateLinkTable(t, _, _, _, _, linkKey) => pks[t := linkKey]
    case InsertRows(_, _) => pks
  }

  function PrimaryKeysOf(plan: seq<Op>): map<string, seq<string>> {
    if plan == [] then map[] else AddPrimaryKey(PrimaryKeysOf(plan[..|plan| - 1]), plan[|plan| - 1])
  }

  predicate LinksTable(op: Op, table: string) {
    op.CreateLinkTable? && op.table == table
  }

  /** The last link create of a table is the n-th operation; with n zero there is none. */
  predicate LinksLastAt(plan: seq<Op>, table: string, n: nat) {
    n <= |plan| && (n > 0 ==> LinksTable(plan[n - 1], table)) &&
    forall i :: n <= i < |plan| ==> !LinksTable(plan[i], table)
  }

  /** The key columns that the creates of a table declare, in order. */
  function DeclaredKeys(ops: seq<Op>, table: string): seq<string> {
    if ops == [] then []
    else
      var front, last := DeclaredKeys(ops[..|ops| - 1], table), ops[|ops| - 1];
      if last.CreateTable? && last.table == table then front + PrimaryKeyColumns(last.columns) else front
  }

  lemma KeyGrows(pks: map<string, seq<string>>, op: Op, linkKey: seq<string>, ops: seq<Op>, table: string)
    requires PkFor(pks, table) == linkKey + DeclaredKeys(ops, table) && !LinksTable(op, table)
    ensures PkFor(AddPrimaryKey(pks, op), table) == linkKey + DeclaredKeys(ops + [op], table)
  {
    assert (ops + [op])[..|ops|] == ops;
  }

  /** What is collected for a table: the key of its last link create, if any, and then the key columns
      of the creates after it. */
  lemma {:induction false} CollectedKey(plan: seq<Op>, table: string, n: nat)
    requires LinksLastAt(plan, table, n)
    ensures PkFor(PrimaryKeysOf(plan), table) ==
            (if n == 0 then [] else plan[n - 1].linkKey) + DeclaredKeys(plan[n..], table)
    decreases |plan|
  {
    if n < |plan| {
      var front, last := plan[..|plan| - 1], plan[|plan| - 1];
      CollectedKey(front, table, n);
      assert !LinksTable(last, table);
      assert plan[n..] == front[n..] + [last];
      KeyGrows(PrimaryKeysOf(front), last, if n == 0 then [] else plan[n - 1].linkKey, front[n..], table);
    } else {
      assert plan[n..] == [];
    }
  }

  method CollectPrimaryKeys(plan: seq<Op>) returns (pks: map<string, seq<string>>)
    ensures pks == PrimaryKeysOf(plan)
    ensures forall table, n: nat :: LinksLastAt(plan, table, n) ==>
              PkFor(pks, table) == (if n == 0 then [] else plan[n - 1].linkKey) + DeclaredKeys(plan[n..], table)
  {
    pks := map[];
    for i := 0 to |plan|
      invariant pks == PrimaryKeysOf(plan[..i])
    {
      assert plan[..i + 1][..i] == plan[..i];
      pks := AddPrimaryKey(pks, plan[i]);
    }
    assert plan[..|plan|] == plan;
    forall table, n: nat | LinksLastAt(plan, table, n)
      ensures PkFor(pks, table) == (if n == 0 then [] else plan[n - 1].linkKey) + DeclaredKeys(plan[n..], table)
    {
      CollectedKey(plan, table, n);
    }
  }

  function Upserts(table: string, pk: seq<string>, rows: seq<LiteralRow>): seq<Statement> {
    seq(|rows|, i requires 0 <= i < |rows| => Upsert(table, pk, rows[i]))
  }

  method RenderInsertRows(lit: Value -> string, table: string, rows: seq<PlanRow>, pk: seq<string>, seen: set<string>)
    returns (lines: seq<Statement>, seen': set<string>)
    ensures var kept := Deduplicate(table, PrintedAll(lit, rows), pk, seen);
            lines == Upserts(table, pk, kept.rows) && seen' == kept.seen
  {
    lines, seen' := [], seen;
    var printed := PrintedAll(lit, rows);
    for i := 0 to |rows|
      invariant var kept := Deduplicate(table, printed[..i], pk, seen);
                lines == Upserts(table, pk, kept.rows) && seen' == kept.seen
    {
      assert printed[..i + 1][..i] == printed[..i];
      var row := Printed(lit, rows[i]);
      var key := Literals.DedupKey(table, row, pk);
      if key.Some? {
        if key.value in seen' {
          continue;
        }
        seen' := seen' + {key.value};
      }
      lines := lines + [Upsert(table, pk, row)];
    }
    assert printed[..|rows|] == printed;
  }

  datatype Export = Export(lines: seq<Statement>, seen: map<string, set<string>>)

  function ExportOp(lit: Value -> string, pks: map<string, seq<string>>, e: Export, op: Op): Export {
    match op
    case CreateTable(t, columns) => e.(lines := e.lines + [Create(t, columns)])
    case CreateLinkTable(t, lc, lt, rc, rt, linkKey) => e.(lines := e.lines + [CreateLink(t, lc, lt, rc, rt, linkKey)])
    case InsertRows(t, rows) =>
      var kept := Deduplicate(t, PrintedAll(lit, rows), PkFor(pks, t), SeenIn(e.seen, t));
      Export(e.lines + Upserts(t, PkFor(pks, t), kept.rows), e.seen[t := kept.seen])
  }

  function Exported(lit: Value -> string, pks: map<string, seq<string>>, ops: seq<Op>): Export {
    if ops == [] then Export([], map[]) else ExportOp(lit, pks, Exported(lit, pks, ops[..|ops| - 1]), ops[|ops| - 1])
  }

  method ExportSQL(lit: Value -> string, plan: seq<Op>) returns (lines: seq<Statement>)
    ensures lines == Exported(lit, PrimaryKeysOf(plan), plan).lines
  {
    var pks := CollectPrimaryKeys(plan);
    var seen: map<string, set<string>> := map[];
    lines := [];
    for i := 0 to |plan|
      invariant Export(lines, seen) == Exported(lit, pks, plan[..i])
    {
      assert plan[..i + 1][..i] == plan[..i];
      match plan[i]
      case CreateTable(t, columns) => lines := lines + [Create(t, columns)];
      case CreateLinkTable(t, lc, lt, rc, rt, linkKey) => lines := lines + [CreateLink(t, lc, lt, rc, rt, linkKey)];
      case InsertRows(t, rows) =>
        var more, seen' := RenderInsertRows(lit, t, rows, PkFor(pks, t), SeenIn(seen, t));
        lines, seen := lines + more, seen[t := seen'];
    }
    assert plan[..|plan|] == plan;
  }

  function RowsOf(stmts: seq<Statement>): seq<LiteralRow> {
    if stmts == [] then []
    else
      var front, last := RowsOf(stmts[..|stmts| - 1]), stmts[|stmts| - 1];
      if last.Upsert? then front + [last.row] else front
  }

  predicate OnlyUpserts(stmts: seq<Statement>, pk: seq<string>) {
    forall s :: s in stmts ==> !s.DeleteExcept? && (s.Upsert? ==> s.pk == pk)
  }

  lemma {:induction false} RunIsPutAll(t: Table, pk: seq<string>, stmts: seq<Statement>)
    requires OnlyUpserts(stmts, pk)
    ensures RunTable(Exec, t, stmts) == PutAll(t, pk, RowsOf(stmts))
    decreases |stmts|
  {
    if stmts != [] {
      var front, last := stmts[..|stmts| - 1], stmts[|stmts| - 1];
      RunIsPutAll(t, pk, front);
      if last.Upsert? {
        var rows := RowsOf(front) + [last.row];
        assert rows[..|rows| - 1] == RowsOf(front);
      }
    }
  }

  lemma {:induction false} RowsOfConcat(a: seq<Statement>, b: seq<Statement>)
    ensures RowsOf(a + b) == RowsOf(a) + RowsOf(b)
    decreases |b|
  {
    if b == [] {
      assert a + b == a;
    } else {
      assert (a + b)[..|a + b| - 1] == a + b[..|b| - 1];
      RowsOfConcat(a, b[..|b| - 1]);
    }
  }

  lemma {:induction false} RowsOfUpserts(table: string, pk: seq<string>, rows: seq<LiteralRow>)
    ensures RowsOf(Upserts(table, pk, rows)) == rows
    decreases |rows|
  {
    if rows != [] {
      var all := Upserts(table, pk, rows);
      assert all[..|all| - 1] == Upserts(table, pk, rows[..|rows| - 1]);
      RowsOfUpserts(table, pk, rows[..|rows| - 1]);
    }
  }

  lemma {:induction false} RowsOfMembers(stmts: seq<Statement>, row: LiteralRow)
    ensures row in RowsOf(stmts) <==> exists s :: s in stmts && s.Upsert? && s.row == row
    decreases |stmts|
  {
    if stmts != [] {
      assert stmts == stmts[..|stmts| - 1] + [stmts[|stmts| - 1]];
      RowsOfMembers(stmts[..|stmts| - 1], row);
    }
  }

  /** Statements about one table that come to `rows`: creates, and one upsert for each row that
      was first under its key. */
  ghost predicate Shape(table: string, pk: seq<string>, rows: seq<LiteralRow>, lines: seq<Statement>,
                        seen: set<string>) {
    && RowsOf(On(TargetOf, lines, table)) == Deduplicate(table, rows, pk, {}).rows
    && seen == Deduplicate(table, rows, pk, {}).seen
    && OnlyUpserts(On(TargetOf, lines, table), pk)
  }

  lemma ShapeGrows(table: string, pk: seq<string>, rows: seq<LiteralRow>, lines: seq<Statement>, seen: set<string>,
                   more: seq<LiteralRow>)
    requires Shape(table, pk, rows, lines, seen)
    ensures var kept := Deduplicate(table, more, pk, seen);
            Shape(table, pk, rows + more, lines + Upserts(table, pk, kept.rows), kept.seen)
  {
    var kept := Deduplicate(table, more, pk, seen);
    var added := Upserts(table, pk, kept.rows);
    DeduplicateConcat(table, rows, more, pk, {});
    OnConcat(TargetOf, lines, added, table);
    OnAll(TargetOf, added, table);
    RowsOfConcat(On(TargetOf, lines, table), added);
    RowsOfUpserts(table, pk, kept.rows);
  }

  lemma ShapeElsewhere(table: string, pk: seq<string>, rows: seq<LiteralRow>, lines: seq<Statement>, seen: set<string>,
                       added: seq<Statement>)
    requires Shape(table, pk, rows, lines, seen) && forall s :: s in added ==> s.table != table
    ensures Shape(table, pk, rows, lines + added, seen)
  {
    OnConcat(TargetOf, lines, added, table);
    OnNone(TargetOf, added, table);
    assert On(TargetOf, lines, table) + [] == On(TargetOf, lines, table);
  }

  lemma ShapeCreates(table: string, pk: seq<string>, rows: seq<LiteralRow>, lines: seq<Statement>, seen: set<string>,
                     s: Statement)
    requires Shape(table, pk, rows, lines, seen) && (s.Create? || s.CreateLink?)
    ensures Shape(table, pk, rows, lines + [s], seen)
  {
    if s.table == table {
      OnConcat(TargetOf, lines, [s], table);
      OnAll(TargetOf, [s], table);
      RowsOfConcat(On(TargetOf, lines, table), [s]);
      assert RowsOf([s]) == [] by { assert [s][..0] == []; }
      assert RowsOf(On(TargetOf, lines, table)) + [] == RowsOf(On(TargetOf, lines, table));
    } else {
      ShapeElsewhere(table, pk, rows, lines, seen, [s]);
    }
  }

  lemma {:induction false} ExportHasShape(lit: Value -> string, pks: map<string, seq<string>>, ops: seq<Op>,
                                          table: string)
    ensures var e := Exported(lit, pks, ops);
            Shape(table, PkFor(pks, table), PrintedAll(lit, WritesTo(ops, table)), e.lines, SeenIn(e.seen, table))
    decreases |ops|
  {
    if ops != [] {
      var front, op := ops[..|ops| - 1], ops[|ops| - 1];
      ExportHasShape(lit, pks, front, table);
      var e, pk, rows := Exported(lit, pks, front), PkFor(pks, table), PrintedAll(lit, WritesTo(front, table));
      if !op.InsertRows? {
        ShapeCreates(table, pk, rows, e.lines, SeenIn(e.seen, table),
                     if op.CreateTable? then Create(op.table, op.columns)
          else CreateLink(op.table, op.leftColumn, op.leftType, op.rightColumn, op.rightType, op.linkKey));
      } else if op.table == table {
        PrintedAllConcat(lit, WritesTo(front, table), op.rows);
        ShapeGrows(table, pk, rows, e.lines, SeenIn(e.seen, table), PrintedAll(lit, op.rows));
      } else {
        var kept := Deduplicate(op.table, PrintedAll(lit, op.rows), PkFor(pks, op.table), SeenIn(e.seen, op.table));
        ShapeElsewhere(table, pk, rows, e.lines, SeenIn(e.seen, table),
                       Upserts(op.table, PkFor(pks, op.table), kept.rows));
      }
    }
  }

  /** The rows that end up as upserts on a table. */
  function KeptRows(lit: Value -> string, plan: seq<Op>, table: string): seq<LiteralRow> {
    Deduplicate(table, PrintedAll(lit, WritesTo(plan, table)), PkFor(PrimaryKeysOf(plan), table), {}).rows
  }

  function Program(lit: Value -> string, plan: seq<Op>): seq<Statement> {
    Exported(lit, PrimaryKeysOf(plan), plan).lines
  }

  /** What an export does to a table: upsert its kept rows, in order. */
  lemma ExportRuns(lit: Value -> string, plan: seq<Op>, db: Database, table: string)
    ensures TableIn(RunAll(db, Program(lit, plan)), EMPTY, table)
         == PutAll(TableIn(db, EMPTY, table), PkFor(PrimaryKeysOf(plan), table), KeptRows(lit, plan, table))
  {
    var pks, stmts := PrimaryKeysOf(plan), Program(lit, plan);
    ExportHasShape(lit, pks, plan, table);
    Locality(Exec, TargetOf, EMPTY, db, stmts, table);
    RunIsPutAll(TableIn(db, EMPTY, table), PkFor(pks, table), On(TargetOf, stmts, table));
  }

  // ---- replay ----

  /** Every row of the plan for the table carries its primary key, with no NULL in it. */
  predicate KeyedFor(lit: Value -> string, plan: seq<Op>, table: string) {
    Keyed(PrintedAll(lit, WritesTo(plan, table)), PkFor(PrimaryKeysOf(plan), table))
  }

  /** Statements drawn from a program draw their rows from it too. */
  lemma DrawnRows(attempts: seq<Statement>, stmts: seq<Statement>, table: string)
    requires forall s :: s in attempts ==> s in stmts
    ensures forall r :: r in RowsOf(On(TargetOf, attempts, table)) ==> r in RowsOf(On(TargetOf, stmts, table))
  {
    OnMembers(TargetOf, attempts, table);
    OnMembers(TargetOf, stmts, table);
    forall r | r in RowsOf(On(TargetOf, attempts, table)) ensures r in RowsOf(On(TargetOf, stmts, table)) {
      RowsOfMembers(On(TargetOf, attempts, table), r);
      RowsOfMembers(On(TargetOf, stmts, table), r);
    }
  }

  /** What statements drawn from an export do to a table: upsert some of its kept rows. */
  lemma AttemptRuns(lit: Value -> string, plan: seq<Op>, db: Database, attempts: seq<Statement>, table: string)
    requires forall s :: s in attempts ==> s in Program(lit, plan)
    ensures var rows := RowsOf(On(TargetOf, attempts, table));
            && TableIn(RunAll(db, attempts), EMPTY, table) ==
               PutAll(TableIn(db, EMPTY, table), PkFor(PrimaryKeysOf(plan), table), rows)
            && forall r :: r in rows ==> r in KeptRows(lit, plan, table)
  {
    var pks, stmts := PrimaryKeysOf(plan), Program(lit, plan);
    ExportHasShape(lit, pks, plan, table);
    OnMembers(TargetOf, attempts, table);
    OnMembers(TargetOf, stmts, table);
    DrawnRows(attempts, stmts, table);
    Locality(Exec, TargetOf, EMPTY, db, attempts, table);
    RunIsPutAll(TableIn(db, EMPTY, table), PkFor(pks, table), On(TargetOf, attempts, table));
  }

  /** One table under an interrupted export that is then run in full. */
  lemma ReplayOneTable(lit: Value -> string, plan: seq<Op>, db: Database, attempts: seq<Statement>, table: string)
    requires KeyedFor(lit, plan, table)
    requires forall s :: s in attempts ==> s in Program(lit, plan)
    ensures TableIn(RunAll(RunAll(db, attempts), Program(lit, plan)), EMPTY, table) ==
            TableIn(RunAll(db, Program(lit, plan)), EMPTY, table)
  {
    var pk, t := PkFor(PrimaryKeysOf(plan), table), TableIn(db, EMPTY, table);
    AttemptRuns(lit, plan, db, attempts, table);
    ExportRuns(lit, plan, RunAll(db, attempts), table);
    ExportRuns(lit, plan, db, table);
    KeptAreRows(table, PrintedAll(lit, WritesTo(plan, table)), pk, {});
    PutAllAbsorbs(t, pk, RowsOf(On(TargetOf, attempts, table)), KeptRows(lit, plan, table));
  }

  /** Replay safety: running any prefixes of a plan's statements any number of times and then all
      of them leaves the database that running them once leaves. */
  lemma ReplaySafe(lit: Value -> string, plan: seq<Op>, db: Database, cuts: seq<nat>)
    requires forall table :: KeyedFor(lit, plan, table)
    ensures RunAll(RunAll(db, Replays(Program(lit, plan), cuts)), Program(lit, plan)) == RunAll(db, Program(lit, plan))
  {
    var stmts := Program(lit, plan);
    var attempts := Replays(stmts, cuts);
    ReplaysDrawFrom(stmts, cuts);
    var again, once := RunAll(RunAll(db, attempts), stmts), RunAll(db, stmts);
    forall table ensures TableIn(again, EMPTY, table) == TableIn(once, EMPTY, table) {
      ReplayOneTable(lit, plan, db, attempts, table);
    }
    Locality(Exec, TargetOf, EMPTY, db, attempts, "");
    Locality(Exec, TargetOf, EMPTY, db, stmts, "");
    Locality(Exec, TargetOf, EMPTY, RunAll(db, attempts), stmts, "");
    TargetsWithin(TargetOf, attempts, stmts);
    SameDatabase(EMPTY, again, once);
  }

  /** Without a primary key an insert is not idempotent: what an attempt inserted stays beside
      what the full run inserts. */
  lemma {:induction false} LooseRowsAccumulate(t: Table, rows: seq<LiteralRow>)
    ensures |PutAll(t, [], rows).loose| == |t.loose| + |rows| && PutAll(t, [], rows).keyed == t.keyed
    decreases |rows|
  {
    if rows != [] {
      LooseRowsAccumulate(t, rows[..|rows| - 1]);
    }
  }

  /** A table without a primary key survives a replay exactly when the attempts inserted nothing
      into it. */
  lemma ReplayNeedsAKey(lit: Value -> string, plan: seq<Op>, db: Database, attempts: seq<Statement>, table: string)
    requires PkFor(PrimaryKeysOf(plan), table) == []
    requires forall s :: s in attempts ==> s in Program(lit, plan)
    ensures TableIn(RunAll(RunAll(db, attempts), Program(lit, plan)), EMPTY, table) ==
            TableIn(RunAll(db, Program(lit, plan)), EMPTY, table)
       <==> RowsOf(On(TargetOf, attempts, table)) == []
  {
    var t, rows, kept := TableIn(db, EMPTY, table), RowsOf(On(TargetOf, attempts, table)), KeptRows(lit, plan, table);
    AttemptRuns(lit, plan, db, attempts, table);
    ExportRuns(lit, plan, RunAll(db, attempts), table);
    ExportRuns(lit, plan, db, table);
    LooseRowsAccumulate(t, rows);
    LooseRowsAccumulate(t, kept);
    LooseRowsAccumulate(PutAll(t, [], rows), kept);
  }

  /** What is left of an attempt at one plan after another plan has run in full: nothing, exactly
      when every column the attempt set under a key is set again or held the same value before. */
  lemma TraceOfAttempts(lit: Value -> string, earlier: seq<Op>, attempts: seq<Statement>, plan: seq<Op>, db: Database,
                        table: string)
    requires forall s :: s in attempts ==> s in Program(lit, earlier)
    requires PkFor(PrimaryKeysOf(earlier), table) == PkFor(PrimaryKeysOf(plan), table)
    requires KeyedFor(lit, earlier, table) && KeyedFor(lit, plan, table)
    ensures var pk, rows := PkFor(PrimaryKeysOf(plan), table), RowsOf(On(TargetOf, attempts, table));
            TableIn(RunAll(RunAll(db, attempts), Program(lit, plan)), EMPTY, table) ==
            TableIn(RunAll(db, Program(lit, plan)), EMPTY, table)
            <==> forall k ::
                   k in Keys(rows, pk) ==>
                     Covered(Look(TableIn(db, EMPTY, table), k), rows, KeptRows(lit, plan, table), pk, k)
  {
    var pk, t := PkFor(PrimaryKeysOf(plan), table), TableIn(db, EMPTY, table);
    AttemptRuns(lit, earlier, db, attempts, table);
    ExportRuns(lit, plan, RunAll(db, attempts), table);
    ExportRuns(lit, plan, db, table);
    KeptAreRows(table, PrintedAll(lit, WritesTo(earlier, table)), pk, {});
    KeptAreRows(table, PrintedAll(lit, WritesTo(plan, table)), pk, {});
    TraceOfUpserts(t, pk, RowsOf(On(TargetOf, attempts, table)), KeptRows(lit, plan, table));
  }
}
