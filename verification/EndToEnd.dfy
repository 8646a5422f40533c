/** Synchronisation and databases together: the feeds of `SyncRuns` change, cycles fetch them and
    apply a plan, sometimes only in part. The database is compared with one on which the cycles
    that were not applied in full never ran. */
module EndToEnd {
  import opened Common
  import opened Plans
  import opened Programs
  import opened Literals
  import opened Dedup
  import opened HeadWatermark
  import opened PageCuts
  import opened SyncRuns

  /** One table as the feeds see it: the rows an item of a feed, named by its checkpoint key,
      becomes there. What the feeds write to other tables does not matter here. */
  datatype Sink = Sink(
    dialect: Dialect, printer: Printer, table: string, columns: seq<Column>, rowsOf: (string, Json) -> seq<PlanRow>)

  function Lit(sink: Sink): Value -> string {
    LiteralOf(sink.dialect, sink.printer)
  }

  function Pk(sink: Sink): seq<string> {
    PrimaryKeyColumns(sink.columns)
  }

  function KeyOfRow(sink: Sink, r: PlanRow): seq<string> {
    RowKey(Printed(Lit(sink), r), Pk(sink))
  }

  /** The columns a row names. */
  function Named(r: PlanRow): set<string> {
    set c | c in r.columns && Carries(r, c)
  }

  /** The rows that items of the feeds become. */
  ghost function RowsIn(sink: Sink, items: map<string, seq<Json>>): set<PlanRow> {
    set k, x, r | k in items && x in items[k] && r in sink.rowsOf(k, x) :: r
  }

  ghost function KeysOf(sink: Sink, rows: set<PlanRow>): set<seq<string>> {
    set r | r in rows :: KeyOfRow(sink, r)
  }

  ghost function PlannedRows(sink: Sink, plan: seq<Op>): set<PlanRow> {
    set r | r in WritesTo(plan, sink.table)
  }

  /** The items of a feed that the plan of a cycle holds. */
  function CycleItems(src: Source, st: KeyState, responses: seq<Response>): seq<Json> {
    var r := OutcomeFor(src, st, responses);
    if r.Fetched? then ItemsInAll(src.spec, r.payloads) else []
  }

  function FreshOf(src: Source, st: KeyState): seq<Json> {
    FreshItems(src.spec, CheckpointOf(st.stored), st.feed)
  }

  ghost function TakenIn(sources: map<string, Source>, w: World, responses: map<string, seq<Response>>)
      : map<string, seq<Json>>
    requires w.Keys == sources.Keys == responses.Keys
  {
    map k | k in w :: CycleItems(sources[k], w[k], responses[k])
  }

  ghost function FreshIn(sources: map<string, Source>, w: World): map<string, seq<Json>>
    requires w.Keys == sources.Keys
  {
    map k | k in w :: FreshOf(sources[k], w[k])
  }

  /** The keys of the rows that are still to come. */
  ghost function KeysAhead(sources: map<string, Source>, sink: Sink, w: World): set<seq<string>>
    requires w.Keys == sources.Keys
  {
    KeysOf(sink, RowsIn(sink, FreshIn(sources, w)))
  }

  // ---- rows the adapters can tell apart ----

  /** A row that carries the table's key, without NULL. */
  ghost predicate GoodRow(sink: Sink, r: PlanRow) {
    PlainTypes(r) && CarriesAll(r, Pk(sink)) && KeyedRow(Printed(Lit(sink), r), Pk(sink))
  }

  /** Rows of one key name the same columns. */
  ghost predicate SameColumns(sink: Sink, rows: set<PlanRow>) {
    forall r, s :: r in rows && s in rows && KeyOfRow(sink, r) == KeyOfRow(sink, s) ==> Named(r) == Named(s)
  }

  /** A Postgres upsert leaves the columns it does not name, so there rows of one key must name the
      same ones; ClickHouse replaces whole rows. */
  ghost predicate GoodRows(sink: Sink, rows: set<PlanRow>) {
    && PlainPrinter(sink.printer) && Pk(sink) != [] && (forall r :: r in rows ==> GoodRow(sink, r))
    && (sink.dialect.PostgresSql? ==> SameColumns(sink, rows))
  }

  lemma PrintedMembers(lit: Value -> string, rows: seq<PlanRow>, p: LiteralRow)
    ensures p in PrintedAll(lit, rows) <==> exists r :: r in rows && p == Printed(lit, r)
  {
    if p in PrintedAll(lit, rows) {
      var i :| 0 <= i < |rows| && PrintedAll(lit, rows)[i] == p;
      assert rows[i] in rows;
    }
    if exists r :: r in rows && p == Printed(lit, r) {
      var r :| r in rows && p == Printed(lit, r);
      var i :| 0 <= i < |rows| && rows[i] == r;
      assert PrintedAll(lit, rows)[i] == p;
    }
  }

  /** The rows a plan writes, as the adapter prints them. */
  function Lines(sink: Sink, plan: seq<Op>): seq<LiteralRow> {
    PrintedAll(Lit(sink), WritesTo(plan, sink.table))
  }

  lemma LinesAreKeyed(sink: Sink, known: set<PlanRow>, plan: seq<Op>)
    requires GoodRows(sink, known) && PlannedRows(sink, plan) <= known
    ensures Keyed(Lines(sink, plan), Pk(sink)) && Faithful(sink.table, Lines(sink, plan), Pk(sink))
    ensures Keys(Lines(sink, plan), Pk(sink)) == KeysOf(sink, PlannedRows(sink, plan))
  {
    var rows := WritesTo(plan, sink.table);
    assert forall r :: r in rows ==> r in PlannedRows(sink, plan);
    forall p | p in Lines(sink, plan) ensures KeyedRow(p, Pk(sink)) {
      PrintedMembers(Lit(sink), rows, p);
    }
    PrintedIsFaithful(sink.dialect, sink.printer, sink.table, Pk(sink), rows);
    forall k ensures k in Keys(Lines(sink, plan), Pk(sink)) <==> k in KeysOf(sink, PlannedRows(sink, plan)) {
      KeysMatch(sink, plan, k);
    }
  }

  lemma KeysMatch(sink: Sink, plan: seq<Op>, k: seq<string>)
    ensures k in Keys(Lines(sink, plan), Pk(sink)) <==> k in KeysOf(sink, PlannedRows(sink, plan))
  {
    var rows := WritesTo(plan, sink.table);
    if k in Keys(Lines(sink, plan), Pk(sink)) {
      var p :| p in Lines(sink, plan) && RowKey(p, Pk(sink)) == k;
      PrintedMembers(Lit(sink), rows, p);
      var r :| r in rows && p == Printed(Lit(sink), r);
      assert r in PlannedRows(sink, plan);
    }
    if k in KeysOf(sink, PlannedRows(sink, plan)) {
      var r :| r in PlannedRows(sink, plan) && KeyOfRow(sink, r) == k;
      PrintedMembers(Lit(sink), rows, Printed(Lit(sink), r));
    }
  }

  // ---- database engines ----

  /** The program and the key of a plan, what running statements does, and when two databases agree
      on the table but for the rows under some keys. */
  datatype Engine<!D, !S> = Engine(
    program: seq<Op> -> seq<S>, key: seq<Op> -> seq<string>, run: (D, seq<S>) -> D,
    agree: (D, D, set<seq<string>>) -> bool)

  ghost predicate Drawn<S>(attempts: seq<S>, program: seq<S>) {
    forall s :: s in attempts ==> s in program
  }

  /** A plan that writes known rows under the table's own key. */
  ghost predicate PlanFor<D, S>(e: Engine<D, S>, sink: Sink, known: set<PlanRow>, plan: seq<Op>) {
    e.key(plan) == Pk(sink) && PlannedRows(sink, plan) <= known
  }

  /** What the engine has to offer for plans of known rows: ignoring more keys is easier; statements
      drawn from a program stay within its keys; and a whole program leaves the same rows under
      its keys. */
  ghost predicate Lawful<D(!new), S(!new)>(e: Engine<D, S>, sink: Sink, known: set<PlanRow>) {
    && (forall a, b, keys, more :: e.agree(a, b, keys) && keys <= more ==> e.agree(a, b, more))
    && (forall a, b, keys, plan, attempts ::
          && PlanFor(e, sink, known, plan) && e.agree(a, b, keys) && KeysOf(sink, PlannedRows(sink, plan)) <= keys
          && Drawn(attempts, e.program(plan))
          ==> e.agree(e.run(a, attempts), b, keys))
    && (forall a, b, keys, plan :: PlanFor(e, sink, known, plan) && e.agree(a, b, keys)
          ==> e.agree(e.run(a, e.program(plan)), e.run(b, e.program(plan)),
                      keys - KeysOf(sink, PlannedRows(sink, plan))))
  }

  // ---- runs over feeds and a database ----

  /** `db` takes every statement that was run; `clean` only those of cycles applied in full. */
  datatype Twins<D> = Twins(keys: World, db: D, clean: D)

  /** A step of `SyncRuns`; a cycle comes with its plan and, when applying it fails, with the
      statements that took effect: any drawn from its program, any number of times. */
  datatype DbStep<S> = DbStep(step: Step, plan: seq<Op>, attempts: seq<S>)

  /** The plan writes rows of the fetched items, and for every key of theirs at least one. */
  ghost predicate PlanFits<D, S>(e: Engine<D, S>, sink: Sink, plan: seq<Op>, rows: set<PlanRow>) {
    e.key(plan) == Pk(sink) && PlannedRows(sink, plan) <= rows &&
    KeysOf(sink, PlannedRows(sink, plan)) == KeysOf(sink, rows)
  }

  /** Items bring known rows, and an item that was not delivered yet leaves its feed only when the
      keys of its rows stay ahead, as those of a record that was updated do. */
  ghost predicate KeysStayAhead(sources: map<string, Source>, sink: Sink, known: set<PlanRow>, w: World, step: Step)
    requires ValidStep(sources, w, step) && step.Change?
  {
    var gone := FreshItems(sources[step.key].spec, CheckpointOf(w[step.key].stored), step.dropped);
    && RowsIn(sink, map[step.key := step.added]) <= known
    && KeysOf(sink, RowsIn(sink, map[step.key := gone])) <= KeysAhead(sources, sink, Next(sources, false, w, step))
  }

  ghost predicate ValidDbStep<D, S>(e: Engine<D, S>, sources: map<string, Source>, sink: Sink, known: set<PlanRow>,
                                    t: Twins<D>, d: DbStep<S>) {
    && ValidStep(sources, t.keys, d.step)
    && (d.step.Change? ==> KeysStayAhead(sources, sink, known, t.keys, d.step))
    && (d.step.Cycle? ==>
          && PlanFits(e, sink, d.plan, RowsIn(sink, TakenIn(sources, t.keys, d.step.responses)))
          && Drawn(d.attempts, e.program(d.plan)))
  }

  ghost function NextDb<D, S>(e: Engine<D, S>, sources: map<string, Source>, transactional: bool, t: Twins<D>,
                              d: DbStep<S>): Twins<D>
    requires ValidStep(sources, t.keys, d.step)
  {
    var keys := Next(sources, transactional, t.keys, d.step);
    if d.step.Change? then t.(keys := keys)
    else if d.step.fate.ApplyFails? then Twins(keys, e.run(t.db, d.attempts), t.clean)
    else Twins(keys, e.run(t.db, e.program(d.plan)), e.run(t.clean, e.program(d.plan)))
  }

  ghost predicate ValidDbRun<D, S>(e: Engine<D, S>, sources: map<string, Source>, transactional: bool, sink: Sink,
                                   known: set<PlanRow>, t: Twins<D>, steps: seq<DbStep<S>>)
    decreases |steps|, 0
  {
    steps == [] ||
    (ValidDbRun(e, sources, transactional, sink, known, t, steps[..|steps| - 1]) &&
     ValidDbStep(e, sources, sink, known, RunDb(e, sources, transactional, sink, known, t, steps[..|steps| - 1]),
                 steps[|steps| - 1]))
  }

  ghost function RunDb<D, S>(e: Engine<D, S>, sources: map<string, Source>, transactional: bool, sink: Sink,
                             known: set<PlanRow>, t: Twins<D>, steps: seq<DbStep<S>>): Twins<D>
    requires ValidDbRun(e, sources, transactional, sink, known, t, steps)
    decreases |steps|, 1
  {
    if steps == [] then t
    else NextDb(e, sources, transactional, RunDb(e, sources, transactional, sink, known, t, steps[..|steps| - 1]),
                steps[|steps| - 1])
  }

  /** The two databases agree but for the keys of rows still to come. */
  ghost predicate DbInv<D, S>(e: Engine<D, S>, sources: map<string, Source>, sink: Sink, known: set<PlanRow>,
                              t: Twins<D>) {
    && Inv(sources, t.keys) && RowsIn(sink, FreshIn(sources, t.keys)) <= known
    && e.agree(t.db, t.clean, KeysAhead(sources, sink, t.keys))
  }

  // ---- what steps do to the rows still to come ----

  lemma RowsGrow(sink: Sink, a: map<string, seq<Json>>, b: map<string, seq<Json>>)
    requires forall k, x :: k in a && x in a[k] ==> k in b && x in b[k]
    ensures RowsIn(sink, a) <= RowsIn(sink, b) && KeysOf(sink, RowsIn(sink, a)) <= KeysOf(sink, RowsIn(sink, b))
  {
  }

  lemma FreshMoves(spec: Spec, st: KeyState, feed: seq<Json>, added: seq<Json>, dropped: seq<Json>, x: Json)
    requires Changes(spec, st, feed, added, dropped)
    ensures var cp := CheckpointOf(st.stored);
            && (x in FreshItems(spec, cp, st.feed) ==>
                  x in FreshItems(spec, cp, feed) || x in FreshItems(spec, cp, dropped))
            && (x in FreshItems(spec, cp, feed) ==> x in FreshItems(spec, cp, st.feed) || x in added)
  {
    var cp := CheckpointOf(st.stored);
    var now, gone := multiset(FreshItems(spec, cp, feed)), multiset(FreshItems(spec, cp, dropped));
    var was, more := multiset(FreshItems(spec, cp, st.feed)), multiset(added);
    FreshChangesBy(spec, cp, st.feed, added, dropped, feed);
    assert (now + gone)[x] == (was + more)[x];
    assert x in now <==> x in FreshItems(spec, cp, feed);
    assert x in gone <==> x in FreshItems(spec, cp, dropped);
    assert x in was <==> x in FreshItems(spec, cp, st.feed);
    assert x in more <==> x in added;
  }

  /** Items of one feed come and go: what was ahead stays ahead or has gone, and what is ahead was
      ahead or has been added. */
  lemma RowsMove(sink: Sink, before: map<string, seq<Json>>, after: map<string, seq<Json>>, key: string,
                 gone: seq<Json>, added: seq<Json>)
    requires before.Keys == after.Keys && key in before && forall k :: k in before && k != key ==> before[k] == after[k]
    requires forall x :: x in before[key] ==> x in after[key] || x in gone
    requires forall x :: x in after[key] ==> x in before[key] || x in added
    ensures RowsIn(sink, before) <= RowsIn(sink, after) + RowsIn(sink, map[key := gone])
    ensures RowsIn(sink, after) <= RowsIn(sink, before) + RowsIn(sink, map[key := added])
  {
    forall r | r in RowsIn(sink, before) ensures r in RowsIn(sink, after) || r in RowsIn(sink, map[key := gone]) {
      var k, x :| k in before && x in before[k] && r in sink.rowsOf(k, x);
      RowIn(sink, if k == key && x in gone then map[key := gone] else after, k, x, r);
    }
    forall r | r in RowsIn(sink, after) ensures r in RowsIn(sink, before) || r in RowsIn(sink, map[key := added]) {
      var k, x :| k in after && x in after[k] && r in sink.rowsOf(k, x);
      RowIn(sink, if k == key && x in added then map[key := added] else before, k, x, r);
    }
  }

  lemma RowIn(sink: Sink, items: map<string, seq<Json>>, k: string, x: Json, r: PlanRow)
    requires k in items && x in items[k] && r in sink.rowsOf(k, x)
    ensures r in RowsIn(sink, items)
  {
  }

  lemma ChangeKeepsKeysAhead(sources: map<string, Source>, sink: Sink, known: set<PlanRow>, w: World, step: Step)
    requires ValidStep(sources, w, step) && step.Change? && KeysStayAhead(sources, sink, known, w, step)
    requires RowsIn(sink, FreshIn(sources, w)) <= known
    ensures var w' := Next(sources, false, w, step);
            RowsIn(sink, FreshIn(sources, w')) <= known && KeysAhead(sources, sink, w) <= KeysAhead(sources, sink, w')
  {
    var w' := Next(sources, false, w, step);
    var spec, st, cp := sources[step.key].spec, w[step.key], CheckpointOf(w[step.key].stored);
    var gone := FreshItems(spec, cp, step.dropped);
    var before, after := FreshIn(sources, w), FreshIn(sources, w');
    forall x ensures x in before[step.key] ==> x in after[step.key] || x in gone
      ensures x in after[step.key] ==> x in before[step.key] || x in step.added
    {
      FreshMoves(spec, st, step.feed, step.added, step.dropped, x);
    }
    RowsMove(sink, before, after, step.key, gone, step.added);
    KeysCover(sink, RowsIn(sink, before), RowsIn(sink, after), RowsIn(sink, map[step.key := gone]));
  }

  lemma KeysCover(sink: Sink, a: set<PlanRow>, b: set<PlanRow>, c: set<PlanRow>)
    requires a <= b + c && KeysOf(sink, c) <= KeysOf(sink, b)
    ensures KeysOf(sink, a) <= KeysOf(sink, b)
  {
    forall k | k in KeysOf(sink, a) ensures k in KeysOf(sink, b) {
      var r :| r in a && KeyOfRow(sink, r) == k;
      assert r in c ==> k in KeysOf(sink, c);
    }
  }

  /** Of the items of a feed a cycle takes all or nothing, all or nothing stays ahead, and what was
      not taken stays. */
  ghost predicate AllOrNothing(was: seq<Json>, taken: seq<Json>, later: seq<Json>) {
    (taken == was || (taken == [] && later == was)) && (later == [] || later == was)
  }

  /** One feed through a cycle: what is fetched is all that is fresh or nothing, and what stays fresh
      is all of it or nothing; what was not fetched stays fresh. */
  lemma KeyThroughCycle(src: Source, st: KeyState, responses: seq<Response>, saved: bool, succeeded: bool)
    requires KeyInv(src.spec, st) && Honest(src, st, responses)
    ensures var taken, later :=
                CycleItems(src, st, responses), FreshOf(src, CycleKey(src, st, responses, saved, succeeded));
            && AllOrNothing(FreshOf(src, st), taken, later) && (!saved ==> later == FreshOf(src, st))
            && (OutcomeFor(src, st, responses).Fetched? && (HasPending(src, st, responses) ==> saved) ==> later == [])
  {
    if OutcomeFor(src, st, responses).Fetched? {
      PageCutIndependence(src.spec, CheckpointOf(st.stored), st.stored, src.pagination, responses, st.feed);
      if HasPending(src, st, responses) ==> saved {
        FetchedAndSavedDeliversAll(src, st, responses, saved, succeeded);
      }
    }
  }

  lemma KeyOfCycle(sources: map<string, Source>, transactional: bool, w: World, step: Step, k: string)
    requires Inv(sources, w) && ValidStep(sources, w, step) && step.Cycle? && k in w
    ensures var w' := Next(sources, transactional, w, step);
            var was, taken, later :=
                FreshIn(sources, w)[k], TakenIn(sources, w, step.responses)[k], FreshIn(sources, w')[k];
            && AllOrNothing(was, taken, later)
            && (step.fate.ApplyFails? ==> later == was)
            && (step.fate.Succeeds? && OutcomeFor(sources[k], w[k], step.responses[k]).Fetched? ==> later == [])
  {
    CycleOfKey(sources, transactional, w, step, k);
    KeyThroughCycle(sources[k], w[k], step.responses[k], WasSaved(sources, transactional, w, step, k),
                    step.fate.Succeeds?);
  }

  ghost predicate ItemsMove(before: map<string, seq<Json>>, during: map<string, seq<Json>>,
                            after: map<string, seq<Json>>) {
    && before.Keys == during.Keys == after.Keys
    && forall k :: k in before ==> AllOrNothing(before[k], during[k], after[k])
  }

  /** Feeds of which all or nothing is taken, and all or nothing remains. */
  lemma RowsSplit(sink: Sink, before: map<string, seq<Json>>, during: map<string, seq<Json>>,
                  after: map<string, seq<Json>>)
    requires ItemsMove(before, during, after)
    ensures var ahead, taken, later := RowsIn(sink, before), RowsIn(sink, during), RowsIn(sink, after);
            taken <= ahead && later <= ahead && ahead <= taken + later
  {
    RowsGrow(sink, during, before);
    RowsGrow(sink, after, before);
    forall r | r in RowsIn(sink, before) ensures r in RowsIn(sink, during) + RowsIn(sink, after) {
      var k, x :| k in before && x in before[k] && r in sink.rowsOf(k, x);
      RowIn(sink, if during[k] == before[k] then during else after, k, x, r);
    }
  }

  lemma CycleMovesItems(sources: map<string, Source>, transactional: bool, w: World, step: Step)
    requires Inv(sources, w) && ValidStep(sources, w, step) && step.Cycle?
    ensures ItemsMove(FreshIn(sources, w), TakenIn(sources, w, step.responses),
                      FreshIn(sources, Next(sources, transactional, w, step)))
  {
    var before, during := FreshIn(sources, w), TakenIn(sources, w, step.responses);
    var after := FreshIn(sources, Next(sources, transactional, w, step));
    forall k | k in before ensures AllOrNothing(before[k], during[k], after[k]) {
      KeyOfCycle(sources, transactional, w, step, k);
    }
  }

  ghost predicate ItemsStay(before: map<string, seq<Json>>, after: map<string, seq<Json>>) {
    before.Keys == after.Keys && forall k :: k in before ==> after[k] == before[k]
  }

  lemma FailureMovesNothing(sources: map<string, Source>, transactional: bool, w: World, step: Step)
    requires Inv(sources, w) && ValidStep(sources, w, step) && step.Cycle? && step.fate.ApplyFails?
    ensures ItemsStay(FreshIn(sources, w), FreshIn(sources, Next(sources, transactional, w, step)))
  {
    var before, after := FreshIn(sources, w), FreshIn(sources, Next(sources, transactional, w, step));
    forall k | k in before ensures after[k] == before[k] {
      KeyOfCycle(sources, transactional, w, step, k);
    }
  }

  lemma RowsStay(sink: Sink, before: map<string, seq<Json>>, after: map<string, seq<Json>>)
    requires ItemsStay(before, after)
    ensures RowsIn(sink, after) == RowsIn(sink, before)
  {
    RowsGrow(sink, before, after);
    RowsGrow(sink, after, before);
  }

  /** What a cycle takes is fresh; what is fresh afterwards was fresh before; and what is neither
      taken nor fresh afterwards was not fresh. */
  lemma CycleMovesRows(sources: map<string, Source>, transactional: bool, sink: Sink, w: World, step: Step)
    requires Inv(sources, w) && ValidStep(sources, w, step) && step.Cycle?
    ensures var ahead, taken := RowsIn(sink, FreshIn(sources, w)), RowsIn(sink, TakenIn(sources, w, step.responses));
            var later := RowsIn(sink, FreshIn(sources, Next(sources, transactional, w, step)));
            taken <= ahead && later <= ahead && ahead <= taken + later && (step.fate.ApplyFails? ==> later == ahead)
  {
    CycleMovesItems(sources, transactional, w, step);
    if step.fate.ApplyFails? {
      FailureMovesNothing(sources, transactional, w, step);
      RowsStay(sink, FreshIn(sources, w), FreshIn(sources, Next(sources, transactional, w, step)));
    }
    RowsSplit(sink, FreshIn(sources, w), TakenIn(sources, w, step.responses),
              FreshIn(sources, Next(sources, transactional, w, step)));
  }

  // ---- every run keeps the invariant ----

  lemma ChangeKeepsInv<D(!new), S(!new)>(e: Engine<D, S>, sources: map<string, Source>, transactional: bool, sink: Sink,
                                         known: set<PlanRow>, t: Twins<D>, d: DbStep<S>)
    requires Lawful(e, sink, known) && DbInv(e, sources, sink, known, t)
    requires ValidDbStep(e, sources, sink, known, t, d) && d.step.Change?
    ensures DbInv(e, sources, sink, known, NextDb(e, sources, transactional, t, d))
  {
    StepKeepsInv(sources, transactional, t.keys, d.step);
    ChangeKeepsKeysAhead(sources, sink, known, t.keys, d.step);
  }

  lemma CycleKeepsInv<D(!new), S(!new)>(e: Engine<D, S>, sources: map<string, Source>, transactional: bool, sink: Sink,
                                        known: set<PlanRow>, t: Twins<D>, d: DbStep<S>)
    requires Lawful(e, sink, known) && DbInv(e, sources, sink, known, t)
    requires ValidDbStep(e, sources, sink, known, t, d) && d.step.Cycle?
    ensures DbInv(e, sources, sink, known, NextDb(e, sources, transactional, t, d))
  {
    var w' := Next(sources, transactional, t.keys, d.step);
    var ahead, taken :=
        RowsIn(sink, FreshIn(sources, t.keys)), RowsIn(sink, TakenIn(sources, t.keys, d.step.responses));
    var later := RowsIn(sink, FreshIn(sources, w'));
    StepKeepsInv(sources, transactional, t.keys, d.step);
    CycleMovesRows(sources, transactional, sink, t.keys, d.step);
    KeysCover(sink, taken, ahead, {});
    KeysLeft(sink, ahead, taken, later);
    if d.step.fate.ApplyFails? {
      AttemptAgrees(e, sink, known, t.db, t.clean, KeysOf(sink, ahead), d.plan, d.attempts);
    } else {
      ProgramAgrees(e, sink, known, t.db, t.clean, KeysOf(sink, ahead), d.plan, KeysOf(sink, later));
    }
  }

  lemma KeysLeft(sink: Sink, ahead: set<PlanRow>, taken: set<PlanRow>, later: set<PlanRow>)
    requires ahead <= taken + later
    ensures KeysOf(sink, ahead) - KeysOf(sink, taken) <= KeysOf(sink, later)
  {
  }

  lemma AttemptAgrees<D(!new), S(!new)>(e: Engine<D, S>, sink: Sink, known: set<PlanRow>, a: D, b: D,
                                        keys: set<seq<string>>,
                                        plan: seq<Op>, attempts: seq<S>)
    requires Lawful(e, sink, known) && PlanFor(e, sink, known, plan) && e.agree(a, b, keys)
    requires KeysOf(sink, PlannedRows(sink, plan)) <= keys && Drawn(attempts, e.program(plan))
    ensures e.agree(e.run(a, attempts), b, keys)
  {
  }

  lemma ProgramAgrees<D(!new), S(!new)>(e: Engine<D, S>, sink: Sink, known: set<PlanRow>, a: D, b: D,
                                        keys: set<seq<string>>,
                                        plan: seq<Op>, rest: set<seq<string>>)
    requires Lawful(e, sink, known) && PlanFor(e, sink, known, plan) && e.agree(a, b, keys)
    requires keys - KeysOf(sink, PlannedRows(sink, plan)) <= rest
    ensures e.agree(e.run(a, e.program(plan)), e.run(b, e.program(plan)), rest)
  {
  }

  lemma {:induction false} RunKeepsDbInv<D(!new), S(!new)>(
      e: Engine<D, S>, sources: map<string, Source>, transactional: bool, sink: Sink, known: set<PlanRow>, t: Twins<D>,
      steps: seq<DbStep<S>>)
    requires Lawful(e, sink, known) && DbInv(e, sources, sink, known, t)
    requires ValidDbRun(e, sources, transactional, sink, known, t, steps)
    ensures DbInv(e, sources, sink, known, RunDb(e, sources, transactional, sink, known, t, steps))
    decreases |steps|
  {
    if steps != [] {
      var front, d := steps[..|steps| - 1], steps[|steps| - 1];
      RunKeepsDbInv(e, sources, transactional, sink, known, t, front);
      var before := RunDb(e, sources, transactional, sink, known, t, front);
      if d.step.Change? {
        ChangeKeepsInv(e, sources, transactional, sink, known, before, d);
      } else {
        CycleKeepsInv(e, sources, transactional, sink, known, before, d);
      }
    }
  }

  /** After a successful cycle that fetched every feed, no row is still to come. */
  lemma NothingAhead(sources: map<string, Source>, transactional: bool, sink: Sink, w: World, step: Step)
    requires Inv(sources, w) && ValidStep(sources, w, step) && step.Cycle? && step.fate.Succeeds?
    requires forall k :: k in w ==> OutcomeFor(sources[k], w[k], step.responses[k]).Fetched?
    ensures KeysAhead(sources, sink, Next(sources, transactional, w, step)) == {}
  {
    var later := FreshIn(sources, Next(sources, transactional, w, step));
    forall k | k in w ensures later[k] == [] {
      KeyOfCycle(sources, transactional, w, step, k);
    }
    assert RowsIn(sink, later) == {};
  }

  /** The twins of any run agree but for the keys of rows still to come: whatever half-applied cycles
      wrote under other keys has been overwritten. */
  lemma TwinsAgree<D(!new), S(!new)>(
      e: Engine<D, S>, sources: map<string, Source>, transactional: bool, sink: Sink, known: set<PlanRow>, t: Twins<D>,
      steps: seq<DbStep<S>>)
    requires Lawful(e, sink, known) && DbInv(e, sources, sink, known, t)
    requires ValidDbRun(e, sources, transactional, sink, known, t, steps)
    ensures var now := RunDb(e, sources, transactional, sink, known, t, steps);
            now.keys.Keys == sources.Keys && e.agree(now.db, now.clean, KeysAhead(sources, sink, now.keys))
  {
    RunKeepsDbInv(e, sources, transactional, sink, known, t, steps);
  }

  /** A successful cycle that fetches every feed. */
  ghost predicate FetchesAll<D, S>(e: Engine<D, S>, sources: map<string, Source>, sink: Sink, known: set<PlanRow>,
                                   t: Twins<D>, d: DbStep<S>) {
    && ValidDbStep(e, sources, sink, known, t, d) && d.step.Cycle? && d.step.fate.Succeeds?
    && forall k :: k in t.keys ==> OutcomeFor(sources[k], t.keys[k], d.step.responses[k]).Fetched?
  }

  /** Half-applied cycles leave no trace: after any run of changing feeds and of cycles that fail or
      succeed, once a successful cycle fetches every feed, the table is the one that the cycles
      applied in full would have made alone. */
  lemma FailuresLeaveNoTrace<D(!new), S(!new)>(
      e: Engine<D, S>, sources: map<string, Source>, transactional: bool, sink: Sink, known: set<PlanRow>, t: Twins<D>,
      steps: seq<DbStep<S>>, d: DbStep<S>)
    requires Lawful(e, sink, known) && DbInv(e, sources, sink, known, t)
    requires ValidDbRun(e, sources, transactional, sink, known, t, steps)
    requires FetchesAll(e, sources, sink, known, RunDb(e, sources, transactional, sink, known, t, steps), d)
    ensures var done := NextDb(e, sources, transactional, RunDb(e, sources, transactional, sink, known, t, steps), d);
            e.agree(done.db, done.clean, {})
  {
    RunKeepsDbInv(e, sources, transactional, sink, known, t, steps);
    LastCycleAgrees(e, sources, transactional, sink, known, RunDb(e, sources, transactional, sink, known, t, steps), d);
  }

  lemma LastCycleAgrees<D(!new), S(!new)>(e: Engine<D, S>, sources: map<string, Source>, transactional: bool,
                                          sink: Sink,
                                          known: set<PlanRow>, t: Twins<D>, d: DbStep<S>)
    requires Lawful(e, sink, known) && DbInv(e, sources, sink, known, t) && FetchesAll(e, sources, sink, known, t, d)
    ensures var done := NextDb(e, sources, transactional, t, d);
            e.agree(done.db, done.clean, {})
  {
    CycleKeepsInv(e, sources, transactional, sink, known, t, d);
    NothingAhead(sources, transactional, sink, t.keys, d.step);
    NoKeysLeft(e, sources, sink, known, NextDb(e, sources, transactional, t, d));
  }

  lemma NoKeysLeft<D(!new), S(!new)>(e: Engine<D, S>, sources: map<string, Source>, sink: Sink, known: set<PlanRow>,
                                     t: Twins<D>)
    requires DbInv(e, sources, sink, known, t) && KeysAhead(sources, sink, t.keys) == {}
    ensures e.agree(t.db, t.clean, {})
  {
  }
}
