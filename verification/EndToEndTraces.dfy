/** What a half-applied cycle does leave behind on Postgres when rows of one key name different
    columns, or when an item leaves its feed for good: one failed cycle, a change of the feed and a
    complete cycle. */
module EndToEndTraces {
  import opened Common
  import opened Plans
  import opened Programs
  import opened Literals
  import opened Dedup
  import opened Watermarks
  import opened HeadWatermark
  import opened PageCuts
  import opened SyncRuns
  import opened EndToEnd
  import opened Postgres
  import opened PostgresExport
  import opened EndToEndPostgres

  /** The rows of a feed's items, in feed order. */
  function RowsFor(sink: Sink, key: string, items: seq<Json>): seq<PlanRow> {
    if items == [] then [] else RowsFor(sink, key, items[..|items| - 1]) + sink.rowsOf(key, items[|items| - 1])
  }

  function PlanOf(sink: Sink, key: string, items: seq<Json>): seq<Op> {
    [CreateTable(sink.table, sink.columns), InsertRows(sink.table, RowsFor(sink, key, items))]
  }

  lemma WriteOneMore(ops: seq<Op>, op: Op, table: string)
    ensures WritesTo(ops + [op], table) ==
              if op.InsertRows? && op.table == table then WritesTo(ops, table) + op.rows else WritesTo(ops, table)
  {
    assert (ops + [op])[..|ops|] == ops;
  }

  lemma KeyOneMore(ops: seq<Op>, op: Op)
    ensures PrimaryKeysOf(ops + [op]) == AddPrimaryKey(PrimaryKeysOf(ops), op)
  {
    assert (ops + [op])[..|ops|] == ops;
  }

  lemma PlanWrites(sink: Sink, key: string, items: seq<Json>)
    ensures WritesTo(PlanOf(sink, key, items), sink.table) == RowsFor(sink, key, items)
    ensures PkFor(PrimaryKeysOf(PlanOf(sink, key, items)), sink.table) == Pk(sink)
  {
    var create := CreateTable(sink.table, sink.columns);
    var insert := InsertRows(sink.table, RowsFor(sink, key, items));
    assert PlanOf(sink, key, items) == [] + [create] + [insert];
    WriteOneMore([], create, sink.table);
    WriteOneMore([] + [create], insert, sink.table);
    KeyOneMore([], create);
    KeyOneMore([] + [create], insert);
    assert [] + RowsFor(sink, key, items) == RowsFor(sink, key, items) && [] + Pk(sink) == Pk(sink);
  }

  lemma {:induction false} RowsForMembers(sink: Sink, key: string, items: seq<Json>, r: PlanRow)
    ensures r in RowsFor(sink, key, items) <==> exists x :: x in items && r in sink.rowsOf(key, x)
    decreases |items|
  {
    if items != [] {
      var front, last := items[..|items| - 1], items[|items| - 1];
      assert items == front + [last];
      RowsForMembers(sink, key, front, r);
    }
  }

  lemma PlanHoldsItsRows(sink: Sink, key: string, items: seq<Json>)
    ensures PlannedRows(sink, PlanOf(sink, key, items)) == RowsIn(sink, map[key := items])
  {
    PlanWrites(sink, key, items);
    var all := map[key := items];
    forall r ensures r in PlannedRows(sink, PlanOf(sink, key, items)) <==> r in RowsIn(sink, all) {
      RowsForMembers(sink, key, items, r);
      if exists x :: x in items && r in sink.rowsOf(key, x) {
        var x :| x in items && r in sink.rowsOf(key, x);
        RowIn(sink, all, key, x, r);
      }
    }
  }

  // ---- three steps of one key that has never been saved ----

  function NewTwins(key: string, feed: seq<Json>, db: Database): Twins<Database> {
    Twins(map[key := NewKey(feed)], db, db)
  }

  /** A cycle over the feed that ends as told. */
  function CycleOver(src: Source, sink: Sink, key: string, feed: seq<Json>, fate: Fate,
                     attempts: seq<Statement>): DbStep<Statement> {
    DbStep(Cycle(map[key := WholeFeed(src.spec, feed)], [key], fate), PlanOf(sink, key, feed), attempts)
  }

  function FeedChange(key: string, feed: seq<Json>, added: seq<Json>, dropped: seq<Json>): DbStep<Statement> {
    DbStep(Change(key, feed, added, dropped), [], [])
  }

  /** A key without a checkpoint, whatever its history. */
  predicate NeverSaved(w: SyncRuns.World, key: string, feed: seq<Json>) {
    w.Keys == {key} && w[key].stored == Blank && w[key].feed == feed
  }

  lemma NeverSavedFetches(src: Source, st: KeyState)
    requires FeedFits(src, st.feed) && st.stored == Blank
    ensures Honest(src, st, WholeFeed(src.spec, st.feed)) && OutcomeFor(src, st, WholeFeed(src.spec, st.feed)).Fetched?
    ensures CycleItems(src, st, WholeFeed(src.spec, st.feed)) == st.feed
  {
    AnyFeedCanBeServed(src.spec, None, src.pagination, st.feed);
    PageCutIndependence(src.spec, None, Blank, src.pagination, WholeFeed(src.spec, st.feed), st.feed);
    AllFreshAtFirst(src.spec, st.feed);
  }

  lemma CycleStepIsValid(src: Source, key: string, feed: seq<Json>, fate: Fate, w: SyncRuns.World)
    requires FeedFits(src, feed) && NeverSaved(w, key, feed) && !fate.SaveFails?
    ensures ValidStep(map[key := src], w, Cycle(map[key := WholeFeed(src.spec, feed)], [key], fate))
    ensures TakenIn(map[key := src], w, map[key := WholeFeed(src.spec, feed)]) == map[key := feed]
  {
    NeverSavedFetches(src, w[key]);
  }

  lemma CycleIsValid(src: Source, sink: Sink, known: set<PlanRow>, key: string, feed: seq<Json>, fate: Fate,
                     attempts: seq<Statement>, t: Twins<Database>)
    requires FeedFits(src, feed) && NeverSaved(t.keys, key, feed) && !fate.SaveFails?
    requires Drawn(attempts, Program(Lit(sink), PlanOf(sink, key, feed)))
    ensures ValidDbStep(PostgresEngine(sink, known), map[key := src], sink, known, t,
                        CycleOver(src, sink, key, feed, fate, attempts))
  {
    CycleStepIsValid(src, key, feed, fate, t.keys);
    PlanHoldsItsRows(sink, key, feed);
    PlanWrites(sink, key, feed);
  }

  lemma FailureChangesNothing(src: Source, st: KeyState, responses: seq<Response>)
    ensures CycleKey(src, st, responses, false, false) == st
  {
  }

  lemma OneKey(w: SyncRuns.World, w': SyncRuns.World, key: string)
    requires w.Keys == w'.Keys == {key} && w[key] == w'[key]
    ensures w' == w
  {
  }

  lemma FailedCycle(src: Source, sink: Sink, key: string, feed: seq<Json>, attempts: seq<Statement>, t: Twins<Database>,
                    known: set<PlanRow>)
    requires FeedFits(src, feed) && NeverSaved(t.keys, key, feed)
    requires ValidStep(map[key := src], t.keys, CycleOver(src, sink, key, feed, ApplyFails, attempts).step)
    ensures NextDb(PostgresEngine(sink, known), map[key := src], true, t,
                   CycleOver(src, sink, key, feed, ApplyFails, attempts))
         == Twins(t.keys, RunAll(t.db, attempts), t.clean)
  {
    var d := CycleOver(src, sink, key, feed, ApplyFails, attempts);
    CycleOfKey(map[key := src], true, t.keys, d.step, key);
    FailureChangesNothing(src, t.keys[key], WholeFeed(src.spec, feed));
    OneKey(t.keys, Next(map[key := src], true, t.keys, d.step), key);
  }

  ghost predicate CompletedOn(db: Database, clean: Database, program: seq<Statement>, done: Twins<Database>) {
    done.db == RunAll(db, program) && done.clean == RunAll(clean, program)
  }

  lemma CompletedCycle(src: Source, sink: Sink, key: string, feed: seq<Json>, t: Twins<Database>, known: set<PlanRow>)
    requires ValidStep(map[key := src], t.keys, CycleOver(src, sink, key, feed, Succeeds, []).step)
    ensures CompletedOn(t.db, t.clean, Program(Lit(sink), PlanOf(sink, key, feed)),
                        NextDb(PostgresEngine(sink, known), map[key := src], true, t,
                               CycleOver(src, sink, key, feed, Succeeds, [])))
  {
  }

  predicate Moves(before: seq<Json>, added: seq<Json>, dropped: seq<Json>, after: seq<Json>) {
    multiset(after) + multiset(dropped) == multiset(before) + multiset(added)
  }

  lemma ChangeIsValid(src: Source, key: string, feed: seq<Json>, added: seq<Json>, dropped: seq<Json>,
                      w: SyncRuns.World)
    requires w.Keys == {key} && w[key].stored == Blank && FeedFits(src, feed)
    requires Moves(w[key].feed, added, dropped, feed)
    ensures ValidStep(map[key := src], w, Change(key, feed, added, dropped))
    ensures NeverSaved(Next(map[key := src], true, w, Change(key, feed, added, dropped)), key, feed)
  {
  }

  /** The twins after a cycle over `before` that only got as far as `attempts`, a change of the feed
      and a complete cycle over `after`. */
  ghost function AfterFailure(src: Source, sink: Sink, key: string, before: seq<Json>, attempts: seq<Statement>,
                              added: seq<Json>, dropped: seq<Json>, after: seq<Json>,
                              db: Database): (done: Twins<Database>)
    requires FeedFits(src, before) && FeedFits(src, after)
    requires Moves(before, added, dropped, after)
    requires Drawn(attempts, Program(Lit(sink), PlanOf(sink, key, before)))
    ensures CompletedOn(RunAll(db, attempts), db, Program(Lit(sink), PlanOf(sink, key, after)), done)
  {
    ThreeStepsAreValid(src, sink, key, before, attempts, added, dropped, after, db, {});
    var e, sources := PostgresEngine(sink, {}), map[key := src];
    var failed :=
        NextDb(e, sources, true, NewTwins(key, before, db), CycleOver(src, sink, key, before, ApplyFails, attempts));
    var changed := NextDb(e, sources, true, failed, FeedChange(key, after, added, dropped));
    NextDb(e, sources, true, changed, CycleOver(src, sink, key, after, Succeeds, []))
  }

  lemma ThreeStepsAreValid(src: Source, sink: Sink, key: string, before: seq<Json>, attempts: seq<Statement>,
                           added: seq<Json>, dropped: seq<Json>, after: seq<Json>, db: Database, known: set<PlanRow>)
    requires FeedFits(src, before) && FeedFits(src, after)
    requires Moves(before, added, dropped, after)
    requires Drawn(attempts, Program(Lit(sink), PlanOf(sink, key, before)))
    ensures var e, sources := PostgresEngine(sink, known), map[key := src];
            var t, first := NewTwins(key, before, db), CycleOver(src, sink, key, before, ApplyFails, attempts);
            && ValidDbStep(e, sources, sink, known, t, first)
            && var failed, change := NextDb(e, sources, true, t, first), FeedChange(key, after, added, dropped);
               && ValidStep(sources, failed.keys, change.step)
               && var changed, last :=
                      NextDb(e, sources, true, failed, change), CycleOver(src, sink, key, after, Succeeds, []);
                  && ValidDbStep(e, sources, sink, known, changed, last)
                  && CompletedOn(RunAll(db, attempts), db, Program(Lit(sink), PlanOf(sink, key, after)),
                                 NextDb(e, sources, true, changed, last))
  {
    var e, sources, t := PostgresEngine(sink, known), map[key := src], NewTwins(key, before, db);
    CycleIsValid(src, sink, known, key, before, ApplyFails, attempts, t);
    FailedCycle(src, sink, key, before, attempts, t, known);
    ChangeIsValid(src, key, after, added, dropped, t.keys);
    var changed := Twins(Next(sources, true, t.keys, Change(key, after, added, dropped)), RunAll(db, attempts), db);
    CycleIsValid(src, sink, known, key, after, Succeeds, [], changed);
    CompletedCycle(src, sink, key, after, changed, known);
  }

  /** The trace of one failed cycle, exactly: the complete cycle covers it when under every key the
      attempts wrote, each column they set is set again or held the same value before. */
  lemma TraceOfOneFailure(src: Source, sink: Sink, key: string, before: seq<Json>, attempts: seq<Statement>,
                          added: seq<Json>, dropped: seq<Json>, after: seq<Json>, db: Database)
    requires FeedFits(src, before) && FeedFits(src, after)
    requires Moves(before, added, dropped, after)
    requires Drawn(attempts, Program(Lit(sink), PlanOf(sink, key, before)))
    requires Keyed(Lines(sink, PlanOf(sink, key, before)), Pk(sink)) &&
             Keyed(Lines(sink, PlanOf(sink, key, after)), Pk(sink))
    ensures var done, rows :=
                AfterFailure(src, sink, key, before, attempts, added, dropped, after, db),
                RowsOf(On(TargetOf, attempts, sink.table));
            var kept := KeptRows(Lit(sink), PlanOf(sink, key, after), sink.table);
            Managed(sink, done.db) == Managed(sink, done.clean) <==>
              forall k :: k in Keys(rows, Pk(sink)) ==> Covered(Look(Managed(sink, db), k), rows, kept, Pk(sink), k)
  {
    PlanWrites(sink, key, before);
    PlanWrites(sink, key, after);
    TraceOfAttempts(Lit(sink), PlanOf(sink, key, before), attempts, PlanOf(sink, key, after), db, sink.table);
  }

  // ---- two failures ----

  lemma {:induction false} MergedLacks(rows: seq<LiteralRow>, pk: seq<string>, k: seq<string>, c: string)
    requires forall r :: r in rows && RowKey(r, pk) == k ==> c !in Updates(r, pk)
    ensures c !in Merged(rows, pk, k)
    decreases |rows|
  {
    if rows != [] {
      var front, last := rows[..|rows| - 1], rows[|rows| - 1];
      assert rows == front + [last];
      MergedLacks(front, pk, k, c);
    }
  }

  /** The item becomes this one row. */
  ghost predicate Brings(sink: Sink, key: string, x: Json, r: PlanRow) {
    PlainPrinter(sink.printer) && Pk(sink) != [] && GoodRow(sink, r) && sink.rowsOf(key, x) == [r]
  }

  lemma OneLine(sink: Sink, key: string, x: Json, r: PlanRow)
    requires Brings(sink, key, x, r)
    ensures RowsFor(sink, key, [x]) == [r] && Lines(sink, PlanOf(sink, key, [x])) == [Printed(Lit(sink), r)]
  {
    PlanWrites(sink, key, [x]);
    assert [x][..0] == [];
    assert RowsFor(sink, key, [x]) == [] + [r];
  }

  /** All statements of a plan for one item with one row upsert that row. */
  lemma WholeAttempt(sink: Sink, key: string, x: Json, r: PlanRow)
    requires Brings(sink, key, x, r)
    ensures var p, rows :=
                Printed(Lit(sink), r), RowsOf(On(TargetOf, Program(Lit(sink), PlanOf(sink, key, [x])), sink.table));
            && Lines(sink, PlanOf(sink, key, [x])) == [p] && Keys(rows, Pk(sink)) == {KeyOfRow(sink, r)}
            && Merged(rows, Pk(sink), KeyOfRow(sink, r)) == Updates(p, Pk(sink))
  {
    var plan, p := PlanOf(sink, key, [x]), Printed(Lit(sink), r);
    PlanWrites(sink, key, [x]);
    OneLine(sink, key, x, r);
    ExportHasShape(Lit(sink), PrimaryKeysOf(plan), plan, sink.table);
    OneMoreKept(sink.table, [], p, Pk(sink), {});
    assert [] + [p] == [p];
    assert Merged([p][..0], Pk(sink), RowKey(p, Pk(sink))) == map[];
    OverlayEmpty(Updates(p, Pk(sink)));
  }

  /** Under a key, a plan that never sets a column there leaves it as an attempt has set it. */
  lemma NotCovered(sink: Sink, key: string, x: Json, r: PlanRow, rows: seq<LiteralRow>, c: string)
    requires Brings(sink, key, x, r)
    requires c in Named(r) && c !in Pk(sink)
    requires forall p :: p in rows && RowKey(p, Pk(sink)) == KeyOfRow(sink, r) ==> c !in Updates(p, Pk(sink))
    ensures var attempted := RowsOf(On(TargetOf, Program(Lit(sink), PlanOf(sink, key, [x])), sink.table));
            && KeyOfRow(sink, r) in Keys(attempted, Pk(sink))
            && !Covered(None, attempted, rows, Pk(sink), KeyOfRow(sink, r))
  {
    WholeAttempt(sink, key, x, r);
    MergedLacks(rows, Pk(sink), KeyOfRow(sink, r), c);
    UpdatesAreNamed(sink, r);
  }

  lemma PairKeepsFirst(table: string, p: LiteralRow, q: LiteralRow, pk: seq<string>)
    requires Keyed([p, q], pk) && Faithful(table, [p, q], pk) && RowKey(q, pk) == RowKey(p, pk)
    ensures forall r :: r in Deduplicate(table, [p, q], pk, {}).rows ==> r == p
  {
    KeepsFirst(table, [p, q], pk);
    assert [p, q][..1] == [p] && [p][..0] == [];
    forall r | r in Deduplicate(table, [p, q], pk, {}).rows ensures r == p {
      assert RowKey(r, pk) == RowKey(p, pk);
      assert FirstUnder([p], pk, RowKey(p, pk)) == p;
    }
  }

  lemma PairLines(sink: Sink, key: string, y: Json, x: Json, s: PlanRow, r: PlanRow)
    requires Brings(sink, key, y, s) && Brings(sink, key, x, r)
    ensures Lines(sink, PlanOf(sink, key, [y, x])) == [Printed(Lit(sink), s), Printed(Lit(sink), r)]
  {
    PlanWrites(sink, key, [y, x]);
    OneLine(sink, key, y, s);
    assert [y, x][..1] == [y];
    assert RowsFor(sink, key, [y, x]) == [s] + [r];
  }

  /** The later of two rows of one key is dropped from an export, so the first one's columns are
      all that is set. */
  lemma FirstRowStands(sink: Sink, key: string, y: Json, x: Json, s: PlanRow, r: PlanRow)
    requires Brings(sink, key, y, s) && Brings(sink, key, x, r) && KeyOfRow(sink, s) == KeyOfRow(sink, r)
    ensures var plan := PlanOf(sink, key, [y, x]);
            && Keyed(Lines(sink, plan), Pk(sink))
            && forall p :: p in KeptRows(Lit(sink), plan, sink.table) ==> p == Printed(Lit(sink), s)
  {
    PlanWrites(sink, key, [y, x]);
    PairLines(sink, key, y, x, s, r);
    PrintedIsFaithful(sink.dialect, sink.printer, sink.table, Pk(sink), [s, r]);
    PairKeepsFirst(sink.table, Printed(Lit(sink), s), Printed(Lit(sink), r), Pk(sink));
  }

  lemma NewItemIsValid(src: Source, key: string, x: Json, y: Json)
    requires FeedFits(src, [x]) && FeedFits(src, [y, x])
    ensures ValidStep(map[key := src], map[key := NewKey([x])], Change(key, [y, x], [y], []))
  {
    assert Moves([x], [y], [], [y, x]);
    ChangeIsValid(src, key, [y, x], [y], [], map[key := NewKey([x])]);
  }

  lemma NewItemKeepsKeysAhead(src: Source, sink: Sink, key: string, x: Json, y: Json, r: PlanRow, s: PlanRow)
    requires FeedFits(src, [x]) && FeedFits(src, [y, x]) && Brings(sink, key, x, r) && Brings(sink, key, y, s)
    ensures ValidStep(map[key := src], map[key := NewKey([x])], Change(key, [y, x], [y], []))
    ensures KeysStayAhead(map[key := src], sink, {r, s}, map[key := NewKey([x])], Change(key, [y, x], [y], []))
  {
    NewItemIsValid(src, key, x, y);
    NothingDropped(src, sink, key);
    OneItemRows(sink, key, y, s);
  }

  lemma NothingDropped(src: Source, sink: Sink, key: string)
    ensures KeysOf(sink, RowsIn(sink, map[key := FreshItems(src.spec, None, [])])) == {}
  {
    assert FreshItems(src.spec, None, []) == [];
  }

  lemma OneItemRows(sink: Sink, key: string, y: Json, s: PlanRow)
    requires Brings(sink, key, y, s)
    ensures RowsIn(sink, map[key := [y]]) == {s}
  {
    RowIn(sink, map[key := [y]], key, y, s);
  }

  lemma OverwriteLeavesColumn(src: Source, sink: Sink, key: string, x: Json, y: Json, r: PlanRow, s: PlanRow, c: string)
    requires FeedFits(src, [x]) && FeedFits(src, [y, x]) && Moves([x], [y], [], [y, x])
    requires Brings(sink, key, x, r) && Brings(sink, key, y, s) && KeyOfRow(sink, s) == KeyOfRow(sink, r)
    requires c in Named(r) && c !in Named(s) && c !in Pk(sink)
    ensures var done := AfterFailure(src, sink, key, [x], Program(Lit(sink), PlanOf(sink, key, [x])), [y], [], [y, x],
                                     map[]);
            Managed(sink, done.db) != Managed(sink, done.clean)
  {
    var attempts := Program(Lit(sink), PlanOf(sink, key, [x]));
    var kept := KeptRows(Lit(sink), PlanOf(sink, key, [y, x]), sink.table);
    WholeAttempt(sink, key, x, r);
    FirstRowStands(sink, key, y, x, s, r);
    UpdatesAreNamed(sink, s);
    NotCovered(sink, key, x, r, kept, c);
    TraceOfOneFailure(src, sink, key, [x], attempts, [y], [], [y, x], map[]);
  }

  /** Partial rows leave a trace: an item fails half-applied, a newer item of the same key arrives
      that does not name one of its columns, and the cycle that completes keeps the column the
      failed one had set. `ThreeStepsAreValid` and the second clause say that every step is one
      that `NoTraceOnPostgres` admits. */
  lemma PartialRowsLeaveATrace(src: Source, sink: Sink, key: string, x: Json, y: Json, r: PlanRow, s: PlanRow,
                               c: string)
    requires FeedFits(src, [x]) && FeedFits(src, [y, x])
    requires Brings(sink, key, x, r) && Brings(sink, key, y, s) && KeyOfRow(sink, s) == KeyOfRow(sink, r)
    requires c in Named(r) && c !in Named(s) && c !in Pk(sink)
    ensures Moves([x], [y], [], [y, x])
    ensures var done := AfterFailure(src, sink, key, [x], Program(Lit(sink), PlanOf(sink, key, [x])), [y], [], [y, x],
                                     map[]);
            Managed(sink, done.db) != Managed(sink, done.clean)
    ensures ValidStep(map[key := src], map[key := NewKey([x])], Change(key, [y, x], [y], []))
    ensures KeysStayAhead(map[key := src], sink, {r, s}, map[key := NewKey([x])], Change(key, [y, x], [y], []))
  {
    assert Moves([x], [y], [], [y, x]);
    OverwriteLeavesColumn(src, sink, key, x, y, r, s, c);
    NewItemKeepsKeysAhead(src, sink, key, x, y, r, s);
  }

  lemma AnotherKeyOnly(sink: Sink, key: string, y: Json, s: PlanRow, k: seq<string>)
    requires Brings(sink, key, y, s) && KeyOfRow(sink, s) != k
    ensures var plan := PlanOf(sink, key, [y]);
            Keyed(Lines(sink, plan), Pk(sink)) && k !in Keys(KeptRows(Lit(sink), plan, sink.table), Pk(sink))
  {
    PlanWrites(sink, key, [y]);
    OneLine(sink, key, y, s);
    KeptAreRows(sink.table, Lines(sink, PlanOf(sink, key, [y])), Pk(sink), {});
  }

  /** So does an item that leaves its feed for good after a half-applied cycle: its row stays,
      although no complete cycle ever held it. */
  lemma DepartedItemLeavesATrace(src: Source, sink: Sink, key: string, x: Json, y: Json, r: PlanRow, s: PlanRow)
    requires FeedFits(src, [x]) && FeedFits(src, [y])
    requires Brings(sink, key, x, r) && Brings(sink, key, y, s) && KeyOfRow(sink, s) != KeyOfRow(sink, r)
    ensures Moves([x], [y], [x], [y])
    ensures var done := AfterFailure(src, sink, key, [x], Program(Lit(sink), PlanOf(sink, key, [x])), [y], [x], [y],
                                     map[]);
            Managed(sink, done.db) != Managed(sink, done.clean)
  {
    var attempts, k := Program(Lit(sink), PlanOf(sink, key, [x])), KeyOfRow(sink, r);
    assert Moves([x], [y], [x], [y]);
    WholeAttempt(sink, key, x, r);
    OneLine(sink, key, x, r);
    AnotherKeyOnly(sink, key, y, s, k);
    TraceOfOneFailure(src, sink, key, [x], attempts, [y], [x], [y], map[]);
  }
}
