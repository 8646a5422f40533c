/** Postgres as an engine for whole runs. */
module EndToEndPostgres {
  import opened Common
  import opened Plans
  import opened Programs
  import opened Literals
  import opened Dedup
  import opened HeadWatermark
  import opened PageCuts
  import opened SyncRuns
  import opened EndToEnd
  import opened Postgres
  import opened PostgresExport

  function Managed(sink: Sink, db: Database): Table {
    TableIn(db, EMPTY, sink.table)
  }

  /** The columns, other than the key's, that known rows of a key name. */
  ghost function Renewed(sink: Sink, known: set<PlanRow>, k: seq<string>): set<string> {
    set r, c | r in known && KeyOfRow(sink, r) == k && c in Named(r) && c !in Pk(sink) :: c
  }

  /** Two rows under a key, present or not, that differ at most in the columns every row of the key
      sets anew. */
  ghost predicate SameBut(a: Option<Row>, b: Option<Row>, pk: seq<string>, k: seq<string>, columns: set<string>) {
    Base(a, pk, k) - columns == Base(b, pk, k) - columns
  }

  /** The same rows but for those under the keys, and there the same columns but for those that
      will be set anew. */
  ghost predicate AgreeOutside(sink: Sink, known: set<PlanRow>, a: Database, b: Database, keys: set<seq<string>>) {
    && Managed(sink, a).loose == Managed(sink, b).loose
    && (forall k :: k !in keys ==> Look(Managed(sink, a), k) == Look(Managed(sink, b), k))
    && (forall k :: k in keys ==>
          SameBut(Look(Managed(sink, a), k), Look(Managed(sink, b), k), Pk(sink), k, Renewed(sink, known, k)))
  }

  ghost function PostgresEngine(sink: Sink, known: set<PlanRow>): Engine<Database, Statement> {
    Engine((plan: seq<Op>) => Program(Lit(sink), plan),
           (plan: seq<Op>) => PkFor(PrimaryKeysOf(plan), sink.table),
           (db: Database, stmts: seq<Statement>) => RunAll(db, stmts),
           (a: Database, b: Database, keys: set<seq<string>>) => AgreeOutside(sink, known, a, b, keys))
  }

  // ---- the columns a list of rows sets under a key ----

  lemma UpdatesAreNamed(sink: Sink, r: PlanRow)
    ensures Updates(Printed(Lit(sink), r), Pk(sink)).Keys == set c | c in Named(r) && c !in Pk(sink)
  {
  }

  /** A line of a plan comes from a known row, which names the columns its key renews. */
  lemma LineRenews(sink: Sink, known: set<PlanRow>, plan: seq<Op>, p: LiteralRow)
    requires GoodRows(sink, known) && sink.dialect.PostgresSql? && PlannedRows(sink, plan) <= known &&
             p in Lines(sink, plan)
    ensures Updates(p, Pk(sink)).Keys == Renewed(sink, known, RowKey(p, Pk(sink)))
  {
    PrintedMembers(Lit(sink), WritesTo(plan, sink.table), p);
    var r :| r in WritesTo(plan, sink.table) && p == Printed(Lit(sink), r);
    assert r in PlannedRows(sink, plan);
    UpdatesAreNamed(sink, r);
    var renewed := Renewed(sink, known, KeyOfRow(sink, r));
    forall c | c in renewed ensures c in Named(r) {
      var s :| s in known && KeyOfRow(sink, s) == KeyOfRow(sink, r) && c in Named(s);
    }
    assert forall c :: c in Named(r) && c !in Pk(sink) ==> c in renewed;
  }

  lemma {:induction false} MergedRenews(rows: seq<LiteralRow>, pk: seq<string>, k: seq<string>, columns: set<string>)
    requires forall r :: r in rows && RowKey(r, pk) == k ==> Updates(r, pk).Keys == columns
    ensures Merged(rows, pk, k).Keys == if k in Keys(rows, pk) then columns else {}
    decreases |rows|
  {
    if rows != [] {
      var front, last := rows[..|rows| - 1], rows[|rows| - 1];
      assert rows == front + [last];
      KeysExtend(front, pk, last);
      MergedRenews(front, pk, k, columns);
    }
  }

  lemma LinesRenew(sink: Sink, known: set<PlanRow>, plan: seq<Op>, rows: seq<LiteralRow>, k: seq<string>)
    requires GoodRows(sink, known) && sink.dialect.PostgresSql? && PlannedRows(sink, plan) <= known
    requires forall r :: r in rows ==> r in Lines(sink, plan)
    ensures Keyed(rows, Pk(sink))
    ensures Merged(rows, Pk(sink), k).Keys == if k in Keys(rows, Pk(sink)) then Renewed(sink, known, k) else {}
  {
    LinesAreKeyed(sink, known, plan);
    forall r | r in rows && RowKey(r, Pk(sink)) == k ensures Updates(r, Pk(sink)).Keys == Renewed(sink, known, k) {
      LineRenews(sink, known, plan, r);
    }
    MergedRenews(rows, Pk(sink), k, Renewed(sink, known, k));
  }

  lemma OverlaySameBut(a: Row, b: Row, m: Row)
    requires a - m.Keys == b - m.Keys
    ensures a + m == b + m
  {
    forall c | c !in m ensures c in a <==> c in b ensures c in a && c in b ==> a[c] == b[c] {
      assert c in a <==> c in a - m.Keys;
      assert c in b <==> c in b - m.Keys;
      assert c in a ==> (a - m.Keys)[c] == a[c];
      assert c in b ==> (b - m.Keys)[c] == b[c];
    }
  }

  lemma OverlayOutside(a: Row, m: Row, columns: set<string>)
    requires m.Keys <= columns
    ensures (a + m) - columns == a - columns
  {
  }

  // ---- the laws ----

  lemma AgreeMore(sink: Sink, known: set<PlanRow>, a: Database, b: Database, keys: set<seq<string>>,
                  more: set<seq<string>>)
    requires AgreeOutside(sink, known, a, b, keys) && keys <= more
    ensures AgreeOutside(sink, known, a, b, more)
  {
  }

  /** The rows a program upserts are lines of the plan, and of each key there is one. */
  lemma KeptLines(sink: Sink, known: set<PlanRow>, plan: seq<Op>)
    requires GoodRows(sink, known) && PlannedRows(sink, plan) <= known &&
             PkFor(PrimaryKeysOf(plan), sink.table) == Pk(sink)
    ensures var kept := KeptRows(Lit(sink), plan, sink.table);
            && (forall r :: r in kept ==> r in Lines(sink, plan))
            && Keys(kept, Pk(sink)) == KeysOf(sink, PlannedRows(sink, plan))
  {
    LinesAreKeyed(sink, known, plan);
    KeepsFirst(sink.table, Lines(sink, plan), Pk(sink));
  }

  lemma AttemptsAgree(sink: Sink, known: set<PlanRow>, a: Database, b: Database, keys: set<seq<string>>, plan: seq<Op>,
                      attempts: seq<Statement>)
    requires GoodRows(sink, known) && sink.dialect.PostgresSql? &&
             PlanFor(PostgresEngine(sink, known), sink, known, plan)
    requires AgreeOutside(sink, known, a, b, keys) && KeysOf(sink, PlannedRows(sink, plan)) <= keys
    requires Drawn(attempts, Program(Lit(sink), plan))
    ensures AgreeOutside(sink, known, RunAll(a, attempts), b, keys)
  {
    var t, pk, rows := Managed(sink, a), Pk(sink), RowsOf(On(TargetOf, attempts, sink.table));
    KeptLines(sink, known, plan);
    AttemptRuns(Lit(sink), plan, a, attempts, sink.table);
    LinesRenew(sink, known, plan, rows, []);
    PutAllClosed(t, pk, rows, []);
    forall k ensures Look(PutAll(t, pk, rows), k) == Written(Look(t, k), rows, pk, k)
      ensures k in Keys(rows, pk) ==>
                k in keys && SameBut(Look(PutAll(t, pk, rows), k), Look(t, k), pk, k, Renewed(sink, known, k))
    {
      PutAllClosed(t, pk, rows, k);
      LinesRenew(sink, known, plan, rows, k);
      if k in Keys(rows, pk) {
        var r :| r in rows && RowKey(r, pk) == k;
        assert k in Keys(KeptRows(Lit(sink), plan, sink.table), pk);
        OverlayOutside(Base(Look(t, k), pk, k), Merged(rows, pk, k), Renewed(sink, known, k));
      }
    }
  }

  /** Under one key: upserts of lines make two rows equal that differ only where the key's rows
      renew, and change nothing under a key they do not have. */
  lemma SameWritten(sink: Sink, known: set<PlanRow>, plan: seq<Op>, rows: seq<LiteralRow>, a: Option<Row>,
                    b: Option<Row>, k: seq<string>)
    requires GoodRows(sink, known) && sink.dialect.PostgresSql? && PlannedRows(sink, plan) <= known
    requires forall r :: r in rows ==> r in Lines(sink, plan)
    requires a == b || SameBut(a, b, Pk(sink), k, Renewed(sink, known, k))
    ensures k in Keys(rows, Pk(sink)) ==> Written(a, rows, Pk(sink), k) == Written(b, rows, Pk(sink), k)
    ensures k !in Keys(rows, Pk(sink)) ==> Written(a, rows, Pk(sink), k) == a && Written(b, rows, Pk(sink), k) == b
  {
    LinesRenew(sink, known, plan, rows, k);
    if k in Keys(rows, Pk(sink)) {
      OverlaySameBut(Base(a, Pk(sink), k), Base(b, Pk(sink), k), Merged(rows, Pk(sink), k));
    }
  }

  lemma ProgramsAgree(sink: Sink, known: set<PlanRow>, a: Database, b: Database, keys: set<seq<string>>, plan: seq<Op>)
    requires GoodRows(sink, known) && sink.dialect.PostgresSql? &&
             PlanFor(PostgresEngine(sink, known), sink, known, plan)
    requires AgreeOutside(sink, known, a, b, keys)
    ensures var program := Program(Lit(sink), plan);
            AgreeOutside(sink, known, RunAll(a, program), RunAll(b, program),
                         keys - KeysOf(sink, PlannedRows(sink, plan)))
  {
    var t, u, pk, kept := Managed(sink, a), Managed(sink, b), Pk(sink), KeptRows(Lit(sink), plan, sink.table);
    KeptLines(sink, known, plan);
    ExportRuns(Lit(sink), plan, a, sink.table);
    ExportRuns(Lit(sink), plan, b, sink.table);
    LinesRenew(sink, known, plan, kept, []);
    PutAllClosed(t, pk, kept, []);
    PutAllClosed(u, pk, kept, []);
    var t', u' := PutAll(t, pk, kept), PutAll(u, pk, kept);
    forall k ensures k in Keys(kept, pk) ==> Look(t', k) == Look(u', k)
      ensures k !in Keys(kept, pk) ==> Look(t', k) == Look(t, k) && Look(u', k) == Look(u, k)
    {
      PutAllClosed(t, pk, kept, k);
      PutAllClosed(u, pk, kept, k);
      SameWritten(sink, known, plan, kept, Look(t, k), Look(u, k), k);
    }
  }

  lemma PostgresIsLawful(sink: Sink, known: set<PlanRow>)
    requires GoodRows(sink, known) && sink.dialect.PostgresSql?
    ensures Lawful(PostgresEngine(sink, known), sink, known)
  {
    var e := PostgresEngine(sink, known);
    forall a, b, keys, more | e.agree(a, b, keys) && keys <= more ensures e.agree(a, b, more) {
      AgreeMore(sink, known, a, b, keys, more);
    }
    forall a, b, keys, plan, attempts
      | PlanFor(e, sink, known, plan) && e.agree(a, b, keys) && KeysOf(sink, PlannedRows(sink, plan)) <= keys &&
      Drawn(attempts, e.program(plan))
      ensures e.agree(e.run(a, attempts), b, keys)
    {
      AttemptsAgree(sink, known, a, b, keys, plan, attempts);
    }
    forall a, b, keys, plan | PlanFor(e, sink, known, plan) && e.agree(a, b, keys)
      ensures e.agree(e.run(a, e.program(plan)), e.run(b, e.program(plan)),
                      keys - KeysOf(sink, PlannedRows(sink, plan)))
    {
      ProgramsAgree(sink, known, a, b, keys, plan);
    }
  }

  lemma StartsAgreed(sources: map<string, Source>, sink: Sink, known: set<PlanRow>, keys: SyncRuns.World, db: Database)
    requires Inv(sources, keys) && RowsIn(sink, FreshIn(sources, keys)) <= known
    ensures DbInv(PostgresEngine(sink, known), sources, sink, known, Twins(keys, db, db))
  {
  }

  lemma NothingOutside(sink: Sink, known: set<PlanRow>, a: Database, b: Database)
    requires PostgresEngine(sink, known).agree(a, b, {})
    ensures Managed(sink, a) == Managed(sink, b)
  {
    SameTable(Managed(sink, a), Managed(sink, b));
  }

  /** `FailuresLeaveNoTrace` for Postgres, from any database and any consistent state of the feeds:
      partial rows included, as long as rows of one key name the same columns. */
  lemma NoTraceOnPostgres(sources: map<string, Source>, transactional: bool, sink: Sink, known: set<PlanRow>,
                          keys: SyncRuns.World,
                          db: Database, steps: seq<DbStep<Statement>>, d: DbStep<Statement>)
    requires GoodRows(sink, known) && sink.dialect.PostgresSql?
    requires Inv(sources, keys) && RowsIn(sink, FreshIn(sources, keys)) <= known
    requires ValidDbRun(PostgresEngine(sink, known), sources, transactional, sink, known, Twins(keys, db, db), steps)
    requires var e := PostgresEngine(sink, known);
             FetchesAll(e, sources, sink, known,
                        RunDb(e, sources, transactional, sink, known, Twins(keys, db, db), steps), d)
    ensures var e := PostgresEngine(sink, known);
            var done := NextDb(e, sources, transactional,
                               RunDb(e, sources, transactional, sink, known, Twins(keys, db, db), steps), d);
            Managed(sink, done.db) == Managed(sink, done.clean)
  {
    var e := PostgresEngine(sink, known);
    PostgresIsLawful(sink, known);
    StartsAgreed(sources, sink, known, keys, db);
    FailuresLeaveNoTrace(e, sources, transactional, sink, known, Twins(keys, db, db), steps, d);
    var done := NextDb(e, sources, transactional,
                       RunDb(e, sources, transactional, sink, known, Twins(keys, db, db), steps), d);
    NothingOutside(sink, known, done.db, done.clean);
  }
}
