/** ClickHouse as an engine for whole runs. */
module EndToEndClickHouse {
  import opened Common
  import opened Plans
  import opened Programs
  import opened Dedup
  import opened HeadWatermark
  import opened SyncRuns
  import opened EndToEnd
  import opened ClickHouse
  import opened ClickHouseExport

  function Managed(sink: Sink, db: Database): Table {
    TableIn(db, EMPTY, sink.table)
  }

  /** The same rows, in the same order, but for those under the keys. */
  ghost predicate AgreeOutside(sink: Sink, a: Database, b: Database, keys: set<seq<string>>) {
    Outside(Managed(sink, a), Pk(sink), keys) == Outside(Managed(sink, b), Pk(sink), keys)
  }

  ghost function ClickHouseEngine(sink: Sink): Engine<Database, Statement> {
    Engine((plan: seq<Op>) => Program(Lit(sink), plan),
           (plan: seq<Op>) => PkFor(PrimaryKeysOf(plan), sink.table),
           (db: Database, stmts: seq<Statement>) => RunAll(db, stmts),
           (a: Database, b: Database, keys: set<seq<string>>) => AgreeOutside(sink, a, b, keys))
  }

  lemma PlanIsKeyed(sink: Sink, known: set<PlanRow>, plan: seq<Op>)
    requires GoodRows(sink, known) && PlanFor(ClickHouseEngine(sink), sink, known, plan)
    ensures KeyedFor(Lit(sink), plan, sink.table)
    ensures Keyed(KeptRows(Lit(sink), plan, sink.table), Pk(sink))
    ensures Keys(KeptRows(Lit(sink), plan, sink.table), Pk(sink)) == KeysOf(sink, PlannedRows(sink, plan))
  {
    LinesAreKeyed(sink, known, plan);
    KeepsFirst(sink.table, Lines(sink, plan), Pk(sink));
  }

  lemma AgreeMore(sink: Sink, a: Database, b: Database, keys: set<seq<string>>, more: set<seq<string>>)
    requires AgreeOutside(sink, a, b, keys) && keys <= more
    ensures AgreeOutside(sink, a, b, more)
  {
    OutsideTwice(Managed(sink, a), Pk(sink), keys, more);
    OutsideTwice(Managed(sink, b), Pk(sink), keys, more);
    assert keys + more == more;
  }

  lemma AttemptsAgree(sink: Sink, known: set<PlanRow>, a: Database, b: Database, keys: set<seq<string>>, plan: seq<Op>,
                      attempts: seq<Statement>)
    requires GoodRows(sink, known) && PlanFor(ClickHouseEngine(sink), sink, known, plan)
    requires AgreeOutside(sink, a, b, keys) && KeysOf(sink, PlannedRows(sink, plan)) <= keys
    requires Drawn(attempts, Program(Lit(sink), plan))
    ensures AgreeOutside(sink, RunAll(a, attempts), b, keys)
  {
    PlanIsKeyed(sink, known, plan);
    AttemptRuns(Lit(sink), plan, a, attempts, sink.table);
    AgreeMore(sink, RunAll(a, attempts), a, KeysOf(sink, PlannedRows(sink, plan)), keys);
  }

  lemma ReplacedOutside(t: Table, pk: seq<string>, rows: seq<LiteralRow>, keys: set<seq<string>>)
    requires Keyed(rows, pk)
    ensures var rest := keys - Keys(rows, pk);
            Outside(Replaced(t, pk, rows), pk, rest) ==
            Outside(Outside(t, pk, keys), pk, Keys(rows, pk)) + AllCells(rows)
  {
    var own := Keys(rows, pk);
    var rest := keys - own;
    OutsideConcat(Outside(t, pk, own), AllCells(rows), pk, rest);
    CellsOutside(rows, pk, rest);
    OutsideTwice(t, pk, own, rest);
    OutsideTwice(t, pk, keys, own);
    assert own + rest == keys + own;
  }

  lemma ProgramsAgree(sink: Sink, known: set<PlanRow>, a: Database, b: Database, keys: set<seq<string>>, plan: seq<Op>)
    requires GoodRows(sink, known) && PlanFor(ClickHouseEngine(sink), sink, known, plan)
    requires AgreeOutside(sink, a, b, keys)
    ensures var program := Program(Lit(sink), plan);
            AgreeOutside(sink, RunAll(a, program), RunAll(b, program), keys - KeysOf(sink, PlannedRows(sink, plan)))
  {
    var kept := KeptRows(Lit(sink), plan, sink.table);
    PlanIsKeyed(sink, known, plan);
    ExportRuns(Lit(sink), plan, a, sink.table);
    ExportRuns(Lit(sink), plan, b, sink.table);
    ReplacedOutside(Managed(sink, a), Pk(sink), kept, keys);
    ReplacedOutside(Managed(sink, b), Pk(sink), kept, keys);
  }

  lemma ClickHouseIsLawful(sink: Sink, known: set<PlanRow>)
    requires GoodRows(sink, known)
    ensures Lawful(ClickHouseEngine(sink), sink, known)
  {
    var e := ClickHouseEngine(sink);
    forall a, b, keys, more | e.agree(a, b, keys) && keys <= more ensures e.agree(a, b, more) {
      AgreeMore(sink, a, b, keys, more);
    }
    forall a, b, keys, plan, attempts
      | PlanFor(e, sink, known, plan) && e.agree(a, b, keys) && KeysOf(sink, PlannedRows(sink, plan)) <= keys &&
      Drawn(attempts, e.program(plan))
      ensures e.agree(e.run(a, attempts), b, keys)
    {
      AttemptsAgree(sink, known, a, b, keys, plan, attempts);
    }
    forall a, b, keys, plan | PlanFor(e, sink, known, plan) && e.agree(a, b, keys)
      ensures e.agree(e.run(a, e.program(plan)), e.run(b, e.program(plan)),
                      keys - KeysOf(sink, PlannedRows(sink, plan)))
    {
      ProgramsAgree(sink, known, a, b, keys, plan);
    }
  }

  lemma StartsAgreed(sources: map<string, Source>, sink: Sink, known: set<PlanRow>, keys: SyncRuns.World, db: Database)
    requires Inv(sources, keys) && RowsIn(sink, FreshIn(sources, keys)) <= known
    ensures DbInv(ClickHouseEngine(sink), sources, sink, known, Twins(keys, db, db))
  {
  }

  lemma SameWithoutExceptions(sink: Sink, a: Database, b: Database)
    requires ClickHouseEngine(sink).agree(a, b, {})
    ensures Managed(sink, a) == Managed(sink, b)
  {
    NothingOutside(Managed(sink, a), Pk(sink));
    NothingOutside(Managed(sink, b), Pk(sink));
  }

  /** `FailuresLeaveNoTrace` for ClickHouse, from any database and any consistent state of the
      feeds: the rows of the table, and their order, are those of the cycles applied in full. */
  lemma NoTraceOnClickHouse(sources: map<string, Source>, transactional: bool, sink: Sink, known: set<PlanRow>,
                            keys: SyncRuns.World,
                            db: Database, steps: seq<DbStep<Statement>>, d: DbStep<Statement>)
    requires GoodRows(sink, known) && Inv(sources, keys) && RowsIn(sink, FreshIn(sources, keys)) <= known
    requires ValidDbRun(ClickHouseEngine(sink), sources, transactional, sink, known, Twins(keys, db, db), steps)
    requires var e := ClickHouseEngine(sink);
             FetchesAll(e, sources, sink, known,
                        RunDb(e, sources, transactional, sink, known, Twins(keys, db, db), steps), d)
    ensures var e := ClickHouseEngine(sink);
            var done := NextDb(e, sources, transactional,
                               RunDb(e, sources, transactional, sink, known, Twins(keys, db, db), steps), d);
            Managed(sink, done.db) == Managed(sink, done.clean)
  {
    var e := ClickHouseEngine(sink);
    ClickHouseIsLawful(sink, known);
    StartsAgreed(sources, sink, known, keys, db);
    FailuresLeaveNoTrace(e, sources, transactional, sink, known, Twins(keys, db, db), steps, d);
    var done := NextDb(e, sources, transactional,
                       RunDb(e, sources, transactional, sink, known, Twins(keys, db, db), steps), d);
    SameWithoutExceptions(sink, done.db, done.clean);
  }
}
