/** Turning plans into ClickHouse statements, and what the resulting programs do. */
module ClickHouseExport {
  import opened Common
  import opened Plans
  import opened Programs
  import opened Dedup
  import opened ClickHouse

  type Database = map<string, Table>

  ghost function RunAll(db: Database, stmts: seq<Statement>): Database {
    Run(Exec, TargetOf, EMPTY, db, stmts)
  }

  // ---- migration plans ----

  function AddPrimaryKey(pks: map<string, seq<string>>, op: Op): map<string, seq<string>> {
    match op
    case CreateTable(t, columns) => pks[t := PrimaryKeyColumns(columns)]
    case CreateLinkTable(t, lc, _, rc, _, linkKey) => pks[t := if linkKey != [] then linkKey else [lc, rc]]
    case InsertRows(_, _) => pks
  }

  function PrimaryKeysOf(plan: seq<Op>): map<string, seq<string>> {
    if plan == [] then map[] else AddPrimaryKey(PrimaryKeysOf(plan[..|plan| - 1]), plan[|plan| - 1])
  }

  predicate CreatesTable(op: Op, table: string) {
    !op.InsertRows? && op.table == table
  }

  /** The last create of a table, of either kind, is the n-th operation; with n zero there is none. */
  predicate CreatesLastAt(plan: seq<Op>, table: string, n: nat) {
    n <= |plan| && (n > 0 ==> CreatesTable(plan[n - 1], table)) &&
    forall i :: n <= i < |plan| ==> !CreatesTable(plan[i], table)
  }

  function DeclaredKey(op: Op): seq<string> {
    match op
    case CreateTable(_, columns) => PrimaryKeyColumns(columns)
    case CreateLinkTable(_, lc, _, rc, _, linkKey) => if linkKey != [] then linkKey else [lc, rc]
    case InsertRows(_, _) => []
  }

  /** What is collected for a table: the key of its last create alone. */
  lemma {:induction false} CollectedKey(plan: seq<Op>, table: string, n: nat)
    requires CreatesLastAt(plan, table, n)
    ensures PkFor(PrimaryKeysOf(plan), table) == if n == 0 then [] else DeclaredKey(plan[n - 1])
    decreases |plan|
  {
    if n < |plan| {
      CollectedKey(plan[..|plan| - 1], table, n);
      assert !CreatesTable(plan[|plan| - 1], table);
    }
  }

  method CollectPrimaryKeys(plan: seq<Op>) returns (pks: map<string, seq<string>>)
    ensures pks == PrimaryKeysOf(plan)
    ensures forall table, n: nat ::
              CreatesLastAt(plan, table, n) ==> PkFor(pks, table) == if n == 0 then [] else DeclaredKey(plan[n - 1])
  {
    pks := map[];
    for i := 0 to |plan|
      invariant pks == PrimaryKeysOf(plan[..i])
    {
      assert plan[..i + 1][..i] == plan[..i];
      pks := AddPrimaryKey(pks, plan[i]);
    }
    assert plan[..|plan|] == plan;
    forall table, n: nat | CreatesLastAt(plan, table, n)
      ensures PkFor(pks, table) == if n == 0 then [] else DeclaredKey(plan[n - 1])
    {
      CollectedKey(plan, table, n);
    }
  }

  /** The kept rows that get a delete condition: those that carry their key. */
  function Conditioned(rows: seq<LiteralRow>, pk: seq<string>): seq<LiteralRow> {
    if rows == [] || pk == [] then []
    else
      var front, last := Conditioned(rows[..|rows| - 1], pk), rows[|rows| - 1];
      if CarriesAll(last, pk) then front + [last] else front
  }

  lemma {:induction false} ConditionedAre(rows: seq<LiteralRow>, pk: seq<string>, r: LiteralRow)
    ensures r in Conditioned(rows, pk) <==> r in rows && pk != [] && CarriesAll(r, pk)
    decreases |rows|
  {
    if rows != [] {
      ConditionedAre(rows[..|rows| - 1], pk, r);
      assert rows == rows[..|rows| - 1] + [rows[|rows| - 1]];
    }
  }

  /** One insert operation: a delete of the keys about to be written, then the rows. */
  function Chunk(table: string, pk: seq<string>, kept: seq<LiteralRow>): seq<Statement> {
    var conditioned := Conditioned(kept, pk);
    (if conditioned == [] then [] else [DeleteWhere(table, pk, conditioned)]) + Inserts(table, kept)
  }

  lemma OneMoreConditioned(rows: seq<LiteralRow>, row: LiteralRow, pk: seq<string>)
    ensures Conditioned(rows + [row], pk) ==
              if pk != [] && CarriesAll(row, pk) then Conditioned(rows, pk) + [row] else Conditioned(rows, pk)
  {
    assert (rows + [row])[..|rows|] == rows;
  }

  /** The rows that survive deduplication, and those among them to delete by key first. */
  method FilterRows(table: string, printed: seq<LiteralRow>, pk: seq<string>, seen: set<string>)
    returns (filtered: seq<LiteralRow>, conditions: seq<LiteralRow>, seen': set<string>)
    ensures Deduplicate(table, printed, pk, seen) == Kept(filtered, seen')
    ensures conditions == Conditioned(filtered, pk)
  {
    filtered, conditions, seen' := [], [], seen;
    for i := 0 to |printed|
      invariant Deduplicate(table, printed[..i], pk, seen) == Kept(filtered, seen')
      invariant conditions == Conditioned(filtered, pk)
    {
      assert printed[..i + 1] == printed[..i] + [printed[i]];
      OneMoreKept(table, printed[..i], printed[i], pk, seen);
      OneMoreConditioned(filtered, printed[i], pk);
      var key := Literals.DedupKey(table, printed[i], pk);
      if key.None? {
        filtered := filtered + [printed[i]];
      } else if key.value !in seen' {
        filtered, conditions, seen' := filtered + [printed[i]], conditions + [printed[i]], seen' + {key.value};
      }
    }
    assert printed[..|printed|] == printed;
  }

  method RenderInserts(table: string, rows: seq<LiteralRow>) returns (lines: seq<Statement>)
    ensures lines == Inserts(table, rows)
  {
    lines := [];
    for i := 0 to |rows|
      invariant lines == Inserts(table, rows[..i])
    {
      lines := lines + [Insert(table, rows[i])];
    }
    assert rows[..|rows|] == rows;
  }

  method RenderInsertRows(lit: Value -> string, table: string, rows: seq<PlanRow>, pk: seq<string>, seen: set<string>)
    returns (lines: seq<Statement>, seen': set<string>)
    ensures lines == Chunk(table, pk, Deduplicate(table, PrintedAll(lit, rows), pk, seen).rows)
    ensures seen' == Deduplicate(table, PrintedAll(lit, rows), pk, seen).seen
  {
    var filtered, conditions;
    filtered, conditions, seen' := FilterRows(table, PrintedAll(lit, rows), pk, seen);
    lines := RenderInserts(table, filtered);
    if |conditions| > 0 {
      lines := [DeleteWhere(table, pk, conditions)] + lines;
    }
  }

  datatype Export = Export(lines: seq<Statement>, seen: map<string, set<string>>)

  function ExportOp(lit: Value -> string, pks: map<string, seq<string>>, e: Export, op: Op): Export {
    match op
    case CreateTable(t, columns) => e.(lines := e.lines + [Create(t, columns)])
    case CreateLinkTable(t, lc, lt, rc, rt, linkKey) => e.(lines := e.lines + [CreateLink(t, lc, lt, rc, rt, linkKey)])
    case InsertRows(t, rows) =>
      var kept := Deduplicate(t, PrintedAll(lit, rows), PkFor(pks, t), SeenIn(e.seen, t));
      Export(e.lines + Chunk(t, PkFor(pks, t), kept.rows), e.seen[t := kept.seen])
  }

  function Exported(lit: Value -> string, pks: map<string, seq<string>>, ops: seq<Op>): Export {
    if ops == [] then Export([], map[]) else ExportOp(lit, pks, Exported(lit, pks, ops[..|ops| - 1]), ops[|ops| - 1])
  }

  function Program(lit: Value -> string, plan: seq<Op>): seq<Statement> {
    Exported(lit, PrimaryKeysOf(plan), plan).lines
  }

  method ExportSQL(lit: Value -> string, plan: seq<Op>) returns (lines: seq<Statement>)
    ensures lines == Program(lit, plan)
  {
    var pks := CollectPrimaryKeys(plan);
    var seen: map<string, set<string>> := map[];
    lines := [];
    for i := 0 to |plan|
      invariant Export(lines, seen) == Exported(lit, pks, plan[..i])
    {
      assert plan[..i + 1][..i] == plan[..i];
      match plan[i]
      case CreateTable(t, columns) => lines := lines + [Create(t, columns)];
      case CreateLinkTable(t, lc, lt, rc, rt, linkKey) => lines := lines + [CreateLink(t, lc, lt, rc, rt, linkKey)];
      case InsertRows(t, rows) =>
        var more, seen' := RenderInsertRows(lit, t, rows, PkFor(pks, t), SeenIn(seen, t));
        lines, seen := lines + more, seen[t := seen'];
    }
    assert plan[..|plan|] == plan;
  }

  // ---- what a program does to one table ----

  lemma {:induction false} KeyedAreConditioned(rows: seq<LiteralRow>, pk: seq<string>)
    requires Keyed(rows, pk)
    ensures Conditioned(rows, pk) == rows
    decreases |rows|
  {
    if rows != [] {
      assert rows[|rows| - 1] in rows;
      KeyedAreConditioned(rows[..|rows| - 1], pk);
    }
  }

  /** A chunk puts its rows in place of whatever stood under their keys. */
  lemma ChunkReplaces(t: Table, table: string, pk: seq<string>, kept: seq<LiteralRow>)
    requires Keyed(kept, pk)
    ensures RunTable(Exec, t, Chunk(table, pk, kept)) == Replaced(t, pk, kept)
  {
    KeyedAreConditioned(kept, pk);
    if kept == [] {
      assert Chunk(table, pk, kept) == [] && Keys(kept, pk) == {} && AllCells(kept) == [];
      NothingOutside(t, pk);
    } else {
      var delete := [DeleteWhere(table, pk, kept)];
      RunTableConcat(Exec, t, delete, Inserts(table, kept));
      assert delete[..0] == [];
      InsertsRun(Without(t, pk, kept), table, kept);
      WithoutIsOutside(t, pk, kept);
    }
  }

  lemma {:induction false} NothingOutside(t: Table, pk: seq<string>)
    ensures Outside(t, pk, {}) == t
    decreases |t|
  {
    if t != [] {
      NothingOutside(t[..|t| - 1], pk);
    }
  }

  lemma ChunkWithin(table: string, pk: seq<string>, kept: seq<LiteralRow>, keys: set<seq<string>>)
    requires Keyed(kept, pk) && Keys(kept, pk) <= keys
    ensures forall s :: s in Chunk(table, pk, kept) ==> Within(s, pk, keys)
  {
    KeyedAreConditioned(kept, pk);
    forall s | s in Inserts(table, kept) ensures Within(s, pk, keys) {
      assert s.row in kept;
    }
  }

  lemma DistinctMeansDisjoint(a: seq<LiteralRow>, b: seq<LiteralRow>, pk: seq<string>)
    requires DistinctKeys(a + b, pk)
    ensures Keys(a, pk) !! Keys(b, pk)
  {
    forall x, y | x in a && y in b ensures RowKey(x, pk) != RowKey(y, pk) {
      var i :| 0 <= i < |a| && a[i] == x;
      var j :| 0 <= j < |b| && b[j] == y;
      assert (a + b)[i] == x && (a + b)[|a| + j] == y;
    }
  }

  lemma ChunkAfter(t: Table, own: seq<Statement>, table: string, pk: seq<string>, first: seq<LiteralRow>,
                   second: seq<LiteralRow>)
    requires Keyed(first, pk) && Keyed(second, pk) && Keys(first, pk) !! Keys(second, pk)
    requires RunTable(Exec, t, own) == Replaced(t, pk, first)
    ensures RunTable(Exec, t, own + Chunk(table, pk, second)) == Replaced(t, pk, first + second)
  {
    RunTableConcat(Exec, t, own, Chunk(table, pk, second));
    ChunkReplaces(Replaced(t, pk, first), table, pk, second);
    ReplaceMore(t, pk, first, second);
  }

  lemma ChunkElsewhere(table: string, pk: seq<string>, rows: seq<LiteralRow>)
    ensures forall s :: s in Chunk(table, pk, rows) ==> s.table == table
  {
  }

  /** Deduplicating in two parts: the parts keep different keys, and only rows that were given. */
  lemma KeptInParts(table: string, pk: seq<string>, rows: seq<LiteralRow>, more: seq<LiteralRow>)
    requires Keyed(rows + more, pk) && Faithful(table, rows + more, pk)
    ensures var first := Deduplicate(table, rows, pk, {});
            var second := Deduplicate(table, more, pk, first.seen);
            && Deduplicate(table, rows + more, pk, {}) == Kept(first.rows + second.rows, second.seen)
            && Keyed(first.rows, pk) && Keyed(second.rows, pk)
            && Keys(first.rows, pk) !! Keys(second.rows, pk)
  {
    var first := Deduplicate(table, rows, pk, {});
    var second := Deduplicate(table, more, pk, first.seen);
    DeduplicateConcat(table, rows, more, pk, {});
    KeepsFirst(table, rows + more, pk);
    DistinctMeansDisjoint(first.rows, second.rows, pk);
    KeptAreRows(table, rows, pk, {});
    KeptAreRows(table, more, pk, first.seen);
  }

  /** Running an export's own statements on a table puts its kept rows in place of whatever stood
      under their keys. */
  lemma {:induction false} ExportReplaces(t: Table, lit: Value -> string, pks: map<string, seq<string>>, ops: seq<Op>,
                                          table: string)
    requires Keyed(PrintedAll(lit, WritesTo(ops, table)), PkFor(pks, table))
    requires Faithful(table, PrintedAll(lit, WritesTo(ops, table)), PkFor(pks, table))
    ensures var e, kept :=
                Exported(lit, pks, ops),
                Deduplicate(table, PrintedAll(lit, WritesTo(ops, table)), PkFor(pks, table), {});
            RunTable(Exec, t, On(TargetOf, e.lines, table)) == Replaced(t, PkFor(pks, table), kept.rows) &&
            SeenIn(e.seen, table) == kept.seen
    decreases |ops|
  {
    var pk := PkFor(pks, table);
    if ops == [] {
      assert Keys([], pk) == {} && AllCells([]) == [];
      NothingOutside(t, pk);
    } else {
      var front, op := ops[..|ops| - 1], ops[|ops| - 1];
      var e, rows := Exported(lit, pks, front), PrintedAll(lit, WritesTo(front, table));
      if op.InsertRows? && op.table == table {
        PrintedAllConcat(lit, WritesTo(front, table), op.rows);
        FaithfulPart(table, pk, rows + PrintedAll(lit, op.rows), rows);
      }
      ExportReplaces(t, lit, pks, front, table);
      if !op.InsertRows? {
        CreateRuns(t, e.lines, if op.CreateTable? then Create(op.table, op.columns)
          else CreateLink(op.table, op.leftColumn, op.leftType, op.rightColumn, op.rightType, op.linkKey), table);
      } else {
        var kept := Deduplicate(op.table, PrintedAll(lit, op.rows), PkFor(pks, op.table),
                                SeenIn(e.seen, op.table)).rows;
        ChunkElsewhere(op.table, PkFor(pks, op.table), kept);
        if op.table == table {
          KeptInParts(table, pk, rows, PrintedAll(lit, op.rows));
          AppendedHere(e.lines, Chunk(table, pk, kept), table);
          ChunkAfter(t, On(TargetOf, e.lines, table), table, pk, Deduplicate(table, rows, pk, {}).rows, kept);
        } else {
          AppendedElsewhere(e.lines, Chunk(op.table, PkFor(pks, op.table), kept), table);
        }
      }
    }
  }

  lemma CreateRuns(t: Table, lines: seq<Statement>, s: Statement, table: string)
    requires s.Create? || s.CreateLink?
    ensures RunTable(Exec, t, On(TargetOf, lines + [s], table)) == RunTable(Exec, t, On(TargetOf, lines, table))
  {
    if s.table == table {
      var own := On(TargetOf, lines, table);
      AppendedHere(lines, [s], table);
      assert (own + [s])[..|own|] == own;
    } else {
      AppendedElsewhere(lines, [s], table);
    }
  }

  lemma AppendedHere(lines: seq<Statement>, added: seq<Statement>, table: string)
    requires forall s :: s in added ==> s.table == table
    ensures On(TargetOf, lines + added, table) == On(TargetOf, lines, table) + added
  {
    OnConcat(TargetOf, lines, added, table);
    OnAll(TargetOf, added, table);
  }

  lemma AppendedElsewhere(lines: seq<Statement>, added: seq<Statement>, table: string)
    requires forall s :: s in added ==> s.table != table
    ensures On(TargetOf, lines + added, table) == On(TargetOf, lines, table)
  {
    OnConcat(TargetOf, lines, added, table);
    OnNone(TargetOf, added, table);
    assert On(TargetOf, lines, table) + [] == On(TargetOf, lines, table);
  }

  /** No statement of an export looks beyond the keys its rows carry. */
  lemma {:induction false} ExportStaysWithin(lit: Value -> string, pks: map<string, seq<string>>, ops: seq<Op>,
                                             table: string, keys: set<seq<string>>)
    requires Keyed(PrintedAll(lit, WritesTo(ops, table)), PkFor(pks, table))
    requires Keys(PrintedAll(lit, WritesTo(ops, table)), PkFor(pks, table)) <= keys
    ensures forall s :: s in Exported(lit, pks, ops).lines && s.table == table ==> Within(s, PkFor(pks, table), keys)
    decreases |ops|
  {
    if ops != [] {
      var front, op, pk := ops[..|ops| - 1], ops[|ops| - 1], PkFor(pks, table);
      var e, rows := Exported(lit, pks, front), PrintedAll(lit, WritesTo(front, table));
      if op.InsertRows? {
        var more := PrintedAll(lit, op.rows);
        var kept := Deduplicate(op.table, more, PkFor(pks, op.table), SeenIn(e.seen, op.table)).rows;
        ChunkElsewhere(op.table, PkFor(pks, op.table), kept);
        if op.table == table {
          PrintedAllConcat(lit, WritesTo(front, table), op.rows);
          assert forall r :: r in rows || r in more ==> r in rows + more;
          KeysConcat(rows, more, pk);
          KeptAreRows(table, more, pk, SeenIn(e.seen, table));
          ChunkWithin(table, pk, kept, keys);
        }
      }
      ExportStaysWithin(lit, pks, front, table, keys);
    }
  }

  lemma FaithfulPart(table: string, pk: seq<string>, all: seq<LiteralRow>, part: seq<LiteralRow>)
    requires Keyed(all, pk) && Faithful(table, all, pk) && forall r :: r in part ==> r in all
    ensures Keyed(part, pk) && Faithful(table, part, pk)
  {
  }

  /** Every row of the plan for the table carries its primary key, with no NULL in it, and keys
      compare as their dedup texts do. */
  ghost predicate KeyedFor(lit: Value -> string, plan: seq<Op>, table: string) {
    && Keyed(PrintedAll(lit, WritesTo(plan, table)), PkFor(PrimaryKeysOf(plan), table))
    && Faithful(table, PrintedAll(lit, WritesTo(plan, table)), PkFor(PrimaryKeysOf(plan), table))
  }

  function KeptRows(lit: Value -> string, plan: seq<Op>, table: string): seq<LiteralRow> {
    Deduplicate(table, PrintedAll(lit, WritesTo(plan, table)), PkFor(PrimaryKeysOf(plan), table), {}).rows
  }

  /** What an export does to a table: its kept rows replace whatever stood under their keys. */
  lemma ExportRuns(lit: Value -> string, plan: seq<Op>, db: Database, table: string)
    requires KeyedFor(lit, plan, table)
    ensures TableIn(RunAll(db, Program(lit, plan)), EMPTY, table)
         == Replaced(TableIn(db, EMPTY, table), PkFor(PrimaryKeysOf(plan), table), KeptRows(lit, plan, table))
  {
    ExportReplaces(TableIn(db, EMPTY, table), lit, PrimaryKeysOf(plan), plan, table);
    Locality(Exec, TargetOf, EMPTY, db, Program(lit, plan), table);
  }

  /** Statements drawn from an export leave every row outside its keys in place. */
  lemma AttemptRuns(lit: Value -> string, plan: seq<Op>, db: Database, attempts: seq<Statement>, table: string)
    requires KeyedFor(lit, plan, table)
    requires forall s :: s in attempts ==> s in Program(lit, plan)
    ensures var pk, keys :=
                PkFor(PrimaryKeysOf(plan), table), Keys(KeptRows(lit, plan, table), PkFor(PrimaryKeysOf(plan), table));
            Outside(TableIn(RunAll(db, attempts), EMPTY, table), pk, keys) ==
            Outside(TableIn(db, EMPTY, table), pk, keys)
  {
    var pk, kept := PkFor(PrimaryKeysOf(plan), table), KeptRows(lit, plan, table);
    KeepsFirst(table, PrintedAll(lit, WritesTo(plan, table)), pk);
    ExportStaysWithin(lit, PrimaryKeysOf(plan), plan, table, Keys(kept, pk));
    OnMembers(TargetOf, attempts, table);
    Locality(Exec, TargetOf, EMPTY, db, attempts, table);
    WithinKeepsOutside(TableIn(db, EMPTY, table), On(TargetOf, attempts, table), pk, Keys(kept, pk));
  }

  /** Replay safety: running any prefixes of a plan's statements any number of times and then all
      of them leaves the database that running them once leaves. */
  lemma ReplaySafe(lit: Value -> string, plan: seq<Op>, db: Database, cuts: seq<nat>)
    requires forall table :: KeyedFor(lit, plan, table)
    ensures RunAll(RunAll(db, Replays(Program(lit, plan), cuts)), Program(lit, plan)) == RunAll(db, Program(lit, plan))
  {
    var stmts := Program(lit, plan);
    var attempts := Replays(stmts, cuts);
    ReplaysDrawFrom(stmts, cuts);
    var again, once := RunAll(RunAll(db, attempts), stmts), RunAll(db, stmts);
    forall table ensures TableIn(again, EMPTY, table) == TableIn(once, EMPTY, table) {
      AttemptRuns(lit, plan, db, attempts, table);
      ExportRuns(lit, plan, RunAll(db, attempts), table);
      ExportRuns(lit, plan, db, table);
    }
    Locality(Exec, TargetOf, EMPTY, db, attempts, "");
    Locality(Exec, TargetOf, EMPTY, db, stmts, "");
    Locality(Exec, TargetOf, EMPTY, RunAll(db, attempts), stmts, "");
    TargetsWithin(TargetOf, attempts, stmts);
    SameDatabase(EMPTY, again, once);
  }
}
