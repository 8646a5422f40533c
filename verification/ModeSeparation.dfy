/** The two halves of a cycle's plan touch different tables, so applying them commutes. */
module ModeSeparation {
  import opened Common
  import opened Plans
  import opened Programs
  import opened Params
  import opened Scheduler
  import opened SchedulerRuns
  import opened FullSync
  import opened FullSyncSnapshot
  import opened Nullability
  import opened Service
  import Nodes = MarkedNodes
  import Marked = MarkedClosure
  import Pg = Postgres
  import PgExport = PostgresExport
  import PgSync = PostgresFullSync
  import Ch = ClickHouse
  import ChExport = ClickHouseExport
  import ChSync = ClickHouseFullSync

  function Tables(ops: seq<Op>): set<string> {
    set i | 0 <= i < |ops| :: ops[i].table
  }

  lemma TablesConcat(a: seq<Op>, b: seq<Op>)
    ensures Tables(a + b) == Tables(a) + Tables(b)
  {
    forall i | 0 <= i < |b| ensures b[i].table in Tables(a + b) { assert (a + b)[|a| + i] == b[i]; }
    forall i | 0 <= i < |a| ensures a[i].table in Tables(a + b) { assert (a + b)[i] == a[i]; }
  }

  function Owned(op: ApiOperation): set<string> {
    set t | t in op.owned
  }

  /** A run creates and writes only tables its operation owns. */
  predicate WritesOwn(run: Run) {
    Tables(run.op.creates) + Tables(OutcomeOps(run.outcomes)) <= Owned(run.op)
  }

  /** Tables owned by the operations of one half of the plan. */
  function OwnedTables(ops: seq<ApiOperation>, reload: bool): set<string> {
    set i, t | 0 <= i < |ops| && (ops[i].mode == FullReload) == reload && t in ops[i].owned :: t
  }

  lemma {:induction false} PlanStaysOwned(ops: seq<ApiOperation>, runs: seq<Run>, reload: bool)
    requires forall r :: r in runs ==> r.op in ops && WritesOwn(r)
    ensures Tables(PlannedOps(runs, reload)) <= OwnedTables(ops, reload)
    decreases |runs|
  {
    if runs != [] {
      var front, run := runs[..|runs| - 1], runs[|runs| - 1];
      PlanStaysOwned(ops, front, reload);
      if (run.op.mode == FullReload) == reload {
        TablesConcat(PlannedOps(front, reload), run.op.creates);
        TablesConcat(PlannedOps(front, reload) + run.op.creates, OutcomeOps(run.outcomes));
        var i :| 0 <= i < |ops| && ops[i] == run.op;
        assert Owned(run.op) <= OwnedTables(ops, reload);
      }
    }
  }

  lemma HalvesAreDisjoint(ops: seq<ApiOperation>)
    requires OneModePerTable(ops)
    ensures OwnedTables(ops, false) !! OwnedTables(ops, true)
  {
  }

  // ---- the programs of a plan stay on its tables ----

  lemma RelaxedTables(ops: seq<Op>)
    ensures Tables(RelaxedPlan(ops)) == Tables(ops)
  {
    var relaxed := RelaxedPlan(ops);
    assert forall i :: 0 <= i < |ops| ==> relaxed[i].table == ops[i].table;
    forall i | 0 <= i < |ops| ensures ops[i].table in Tables(relaxed) { assert relaxed[i].table in Tables(relaxed); }
  }

  lemma FoldedTables(format: Json -> string, plan: seq<Op>)
    requires FullSyncTables(format, plan).Ok?
    ensures forall t :: t in FullSyncTables(format, plan).value ==> t.name in Tables(plan)
  {
    var tables := FullSyncTables(format, plan).value;
    TablesOfPlan(format, plan);
    forall t | t in tables ensures t.name in Tables(plan) {
      var i :| 0 <= i < |tables| && tables[i] == t;
      assert Touches(plan, t.name);
    }
  }

  lemma {:induction false} PgTargets(lit: Value -> string, pks: map<string, seq<string>>, ops: seq<Op>)
    ensures forall s :: s in PgExport.Exported(lit, pks, ops).lines ==> s.table in Tables(ops)
    decreases |ops|
  {
    if ops != [] {
      var front, last := ops[..|ops| - 1], ops[|ops| - 1];
      PgTargets(lit, pks, front);
      assert ops == front + [last] && Tables([last]) == {last.table};
      TablesConcat(front, [last]);
    }
  }

  lemma {:induction false} ChTargets(lit: Value -> string, pks: map<string, seq<string>>, ops: seq<Op>)
    ensures forall s :: s in ChExport.Exported(lit, pks, ops).lines ==> s.table in Tables(ops)
    decreases |ops|
  {
    if ops != [] {
      var front, last := ops[..|ops| - 1], ops[|ops| - 1];
      ChTargets(lit, pks, front);
      assert ops == front + [last] && Tables([last]) == {last.table};
      TablesConcat(front, [last]);
    }
  }

  lemma PgSyncTargets(lit: Value -> string, tables: seq<FullSyncTable>, s: Pg.Statement)
    requires s in PgSync.FullSyncProgram(lit, tables)
    ensures exists t :: t in tables && t.name == s.table
  {
    if s in Flat(tables, PgSync.Creates) {
      FlatMembers(tables, PgSync.Creates, s);
    } else if s in Flat(tables, PgSync.TableUpserts(lit)) {
      FlatMembers(tables, PgSync.TableUpserts(lit), s);
    } else {
      FlatMembers(Reversed(tables), PgSync.Deletes(lit), s);
      var t :| t in Reversed(tables) && s in PgSync.Deletes(lit)(t);
      assert t in tables;
    }
  }

  lemma ChSyncTargets(lit: Value -> string, tables: seq<FullSyncTable>, s: Ch.Statement)
    requires s in ChSync.FullSyncProgram(lit, tables)
    ensures exists t :: t in tables && t.name == s.table
  {
    if s in Flat(tables, ChSync.Creates) {
      FlatMembers(tables, ChSync.Creates, s);
    } else if s in Flat(Reversed(tables), ChSync.Truncates) {
      FlatMembers(Reversed(tables), ChSync.Truncates, s);
      var t :| t in Reversed(tables) && s in ChSync.Truncates(t);
      assert t in tables;
    } else {
      FlatMembers(tables, ChSync.TableInserts(lit), s);
    }
  }

  // ---- what is fetched for an operation stays on its tables ----

  /** The compiled creates of each operation are of tables it owns, and so are the rows extracted from
      what is fetched for it. */
  ghost predicate StaysOwned(api: Backend, ops: seq<ApiOperation>) {
    forall op :: op in ops ==>
      Tables(op.creates) <= Owned(op) &&
      forall n, params :: api(n, op, params).Done? ==> Tables(api(n, op, params).ops) <= Owned(op)
  }

  lemma {:induction false} OutcomesStayOwned(lib: Library, api: Backend, ops: seq<ApiOperation>, op: ApiOperation,
                                             combos: seq<seq<Json>>, outcomes: seq<Outcome>, first: nat)
    requires StaysOwned(api, ops) && op in ops && Asked(lib, api, op, combos, outcomes, first)
    ensures Tables(OutcomeOps(outcomes)) <= Owned(op)
    decreases |outcomes|
  {
    if outcomes != [] {
      var n := |outcomes| - 1;
      assert Answers(lib, api, op, combos[n], outcomes[n], first + n);
      FewerAsked(lib, api, op, combos, outcomes, first);
      OutcomesStayOwned(lib, api, ops, op, combos[..n], outcomes[..n], first);
      TablesConcat(OutcomeOps(outcomes[..n]), outcomes[n].ops);
    }
  }

  lemma FewerAsked(lib: Library, api: Backend, op: ApiOperation, combos: seq<seq<Json>>, outcomes: seq<Outcome>,
                   first: nat)
    requires Asked(lib, api, op, combos, outcomes, first) && outcomes != []
    ensures Asked(lib, api, op, combos[..|combos| - 1], outcomes[..|combos| - 1], first)
  {
    var n := |combos| - 1;
    assert Fit(op, combos[..n]) by {
      assert forall c :: c in combos[..n] ==> c in combos;
    }
    forall k | 0 <= k < n ensures Answers(lib, api, op, combos[..n][k], outcomes[..n][k], first + k) {
      assert Answers(lib, api, op, combos[k], outcomes[k], first + k);
    }
  }

  ghost predicate AllWriteOwn(runs: seq<Run>) {
    forall r :: r in runs ==> WritesOwn(r)
  }

  predicate OpsFrom(ops: seq<ApiOperation>, runs: seq<Run>) {
    forall r :: r in runs ==> r.op in ops
  }

  lemma LastStaysOwned(lib: Library, api: Backend, ops: seq<ApiOperation>, runs: seq<Run>, first: nat)
    requires runs != [] && StaysOwned(api, ops) && OpsFrom(ops, runs) && AllWriteOwn(runs[..|runs| - 1])
    requires var run := runs[|runs| - 1]; Asked(lib, api, run.op, run.combos, run.outcomes, first)
    ensures AllWriteOwn(runs)
  {
    var run := runs[|runs| - 1];
    OutcomesStayOwned(lib, api, ops, run.op, run.combos, run.outcomes, first);
    assert runs == runs[..|runs| - 1] + [run];
  }

  lemma {:induction false} RunsStayOwned(lib: Library, api: Backend, ops: seq<ApiOperation>, start: Published,
                                         runs: seq<Run>,
                                         pending: seq<Checkpoint>, working: Published, calls: nat)
    requires StaysOwned(api, ops) && OpsFrom(ops, runs)
    requires StagedByRuns(lib, api, start, runs, pending, working, calls)
    ensures AllWriteOwn(runs)
    decreases |runs|
  {
    if runs != [] {
      var front, first := runs[..|runs| - 1], CallCount(runs[..|runs| - 1]);
      var before := StagedBefore(lib, api, start, runs, pending, working, calls);
      RunsStayOwned(lib, api, ops, start, front, before, runs[|runs| - 1].seen, first);
      LastStaysOwned(lib, api, ops, runs, first);
    }
  }

  // ---- applying the halves of a cycle's plan ----

  /** No table of the full sync is one the upsert half writes. */
  lemma PlanHalves(lib: Library, api: Backend, ops: seq<ApiOperation>, values: Published, completed: set<string>)
    requires OneModePerTable(ops) && CyclePlanOf(lib, api, ops, values, completed).Ok? && StaysOwned(api, ops)
    ensures var plan := CyclePlanOf(lib, api, ops, values, completed).value;
            forall t :: t in plan.fullSync ==> t.name !in Tables(plan.upsert)
  {
    var cycle := Passes(lib, api, completed, ops, NewCycle(values)).value;
    CycleKeeps(lib, api, completed, ops, values);
    forall r | r in cycle.runs ensures r.op in ops {
      var i :| 0 <= i < |cycle.runs| && cycle.runs[i] == r;
    }
    RunsStayOwned(lib, api, ops, values, cycle.runs, cycle.pending, cycle.working, cycle.calls);
    PlanStaysOwned(ops, cycle.runs, false);
    PlanStaysOwned(ops, cycle.runs, true);
    HalvesAreDisjoint(ops);
    RelaxedTables(cycle.upsert);
    RelaxedTables(cycle.reload);
    FoldedTables(lib.format, RelaxedPlan(cycle.reload));
  }

  /** Whether a transaction is refused does not depend on tables it does not name. */
  lemma {:induction false} RefusalIsLocal(a: PgExport.Database, b: PgExport.Database, stmts: seq<Pg.Statement>)
    requires forall s :: s in stmts ==> (s.table in a <==> s.table in b)
    ensures PgSync.Transaction(a, stmts).Some? <==> PgSync.Transaction(b, stmts).Some?
    ensures PgSync.Transaction(a, stmts).Some? ==>
              forall name ::
                (name in PgSync.Transaction(a, stmts).value <==> name in a || exists s :: s in stmts && s.table == name)
                && (name in PgSync.Transaction(b, stmts).value <==>
                      name in b || exists s :: s in stmts && s.table == name)
    decreases |stmts|
  {
    if stmts != [] {
      var front, last := stmts[..|stmts| - 1], stmts[|stmts| - 1];
      assert stmts == front + [last];
      RefusalIsLocal(a, b, front);
    }
  }

  lemma SameRefusal(lit: Value -> string, upsert: seq<Op>, tables: seq<FullSyncTable>, db: PgExport.Database)
    requires forall t :: t in tables ==> t.name !in Tables(upsert)
    ensures var first, second := PgExport.Program(lit, upsert), PgSync.FullSyncProgram(lit, tables);
            PgSync.Transaction(PgExport.RunAll(db, first), second).Some? <==> PgSync.Transaction(db, second).Some?
  {
    var first, second := PgExport.Program(lit, upsert), PgSync.FullSyncProgram(lit, tables);
    PgTargets(lit, PgExport.PrimaryKeysOf(upsert), upsert);
    Locality(Pg.Exec, Pg.TargetOf, Pg.EMPTY, db, first, "");
    forall s | s in second
      ensures s.table in PgExport.RunAll(db, first) <==> s.table in db { PgSyncTargets(lit, tables, s); }
    RefusalIsLocal(PgExport.RunAll(db, first), db, second);
  }

  /** On Postgres the upsert plan and the full sync of a cycle can be applied in either order, refused
      or not, and the full sync leaves every table of the upsert plan as it is. */
  lemma PostgresHalvesCommute(lit: Value -> string, upsert: seq<Op>, tables: seq<FullSyncTable>, db: PgExport.Database)
    requires forall t :: t in tables ==> t.name !in Tables(upsert)
    ensures var first := PgExport.Program(lit, upsert);
            && PgSync.Applied(lit, tables, PgExport.RunAll(db, first)) ==
               PgExport.RunAll(PgSync.Applied(lit, tables, db), first)
            && forall name :: name in Tables(upsert) ==>
                 TableIn(PgSync.Applied(lit, tables, db), Pg.EMPTY, name) == TableIn(db, Pg.EMPTY, name)
  {
    var first, second := PgExport.Program(lit, upsert), PgSync.FullSyncProgram(lit, tables);
    ProgramsCommute(lit, upsert, tables, db);
    SameRefusal(lit, upsert, tables, db);
    PgSync.AppliedIsRun(lit, tables, db);
    PgSync.AppliedIsRun(lit, tables, PgExport.RunAll(db, first));
  }

  lemma ProgramsCommute(lit: Value -> string, upsert: seq<Op>, tables: seq<FullSyncTable>, db: PgExport.Database)
    requires forall t :: t in tables ==> t.name !in Tables(upsert)
    ensures var first, second := PgExport.Program(lit, upsert), PgSync.FullSyncProgram(lit, tables);
            && PgExport.RunAll(PgExport.RunAll(db, first), second) ==
               PgExport.RunAll(PgExport.RunAll(db, second), first)
            && forall name :: name in Tables(upsert) ==>
                 TableIn(PgExport.RunAll(db, second), Pg.EMPTY, name) == TableIn(db, Pg.EMPTY, name)
  {
    var first, second := PgExport.Program(lit, upsert), PgSync.FullSyncProgram(lit, tables);
    PgTargets(lit, PgExport.PrimaryKeysOf(upsert), upsert);
    forall i | 0 <= i < |second|
      ensures Pg.TargetOf(second[i]) !in Tables(upsert) { PgSyncTargets(lit, tables, second[i]); }
    DisjointProgramsCommute(Pg.Exec, Pg.TargetOf, Pg.EMPTY, db, first, second);
    forall name | name in Tables(upsert)
      ensures TableIn(PgExport.RunAll(db, second), Pg.EMPTY, name) == TableIn(db, Pg.EMPTY, name)
    {
      OnOutside(Pg.TargetOf, second, name);
      Locality(Pg.Exec, Pg.TargetOf, Pg.EMPTY, db, second, name);
    }
  }

  /** The same on ClickHouse. */
  lemma ClickHouseHalvesCommute(lit: Value -> string, upsert: seq<Op>, tables: seq<FullSyncTable>,
                                db: ChExport.Database)
    requires forall t :: t in tables ==> t.name !in Tables(upsert)
    ensures var first, second := ChExport.Program(lit, upsert), ChSync.FullSyncProgram(lit, tables);
            && ChExport.RunAll(ChExport.RunAll(db, first), second) ==
               ChExport.RunAll(ChExport.RunAll(db, second), first)
            && forall name :: name in Tables(upsert) ==>
                 TableIn(ChExport.RunAll(db, second), Ch.EMPTY, name) == TableIn(db, Ch.EMPTY, name)
  {
    var first, second := ChExport.Program(lit, upsert), ChSync.FullSyncProgram(lit, tables);
    ChTargets(lit, ChExport.PrimaryKeysOf(upsert), upsert);
    forall i | 0 <= i < |second|
      ensures Ch.TargetOf(second[i]) !in Tables(upsert) { ChSyncTargets(lit, tables, second[i]); }
    DisjointProgramsCommute(Ch.Exec, Ch.TargetOf, Ch.EMPTY, db, first, second);
    forall name | name in Tables(upsert)
      ensures TableIn(ChExport.RunAll(db, second), Ch.EMPTY, name) == TableIn(db, Ch.EMPTY, name)
    {
      OnOutside(Ch.TargetOf, second, name);
      Locality(Ch.Exec, Ch.TargetOf, Ch.EMPTY, db, second, name);
    }
  }

  /** What is extracted from a marked payload is written to the tables the schema declares. */
  lemma ExtractionStaysDeclared(format: Json -> string, schema: Marked.Schema, roots: seq<Nodes.Root>, payload: Json)
    requires forall root :: root in roots ==> Marked.Fits(schema, root.node)
    ensures Tables(Nodes.AddAll(Nodes.Inserted([], {}), Nodes.PayloadInserts(format, roots, payload)).ops) <=
            schema.keys.Keys + schema.links.Keys
  {
    Marked.ExtractionIsClosed(format, schema, roots, payload);
  }
}
