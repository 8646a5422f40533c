/** What a cycle publishes and plans: the values that stand under an id at its end are those of its start and
    those its calls brought, each text once. */
module Publishing {
  import opened Common
  import opened Values
  import opened Params
  import opened Scheduler
  import opened SchedulerRuns
  import opened FullSync
  import opened Nullability
  import opened Service

  /** A value with this text stands under the id. */
  predicate Stands(format: Json -> string, values: Published, id: string, text: string) {
    id in values && exists i :: 0 <= i < |values[id]| && format(values[id][i]) == text
  }

  /** The list holds a value for the id with this text. */
  predicate Lists(format: Json -> string, values: seq<(string, Json)>, id: string, text: string) {
    exists i :: 0 <= i < |values| && values[i].0 == id && format(values[i].1) == text
  }

  /** A call that ended well brought a value for the id with this text. */
  predicate Brings(format: Json -> string, outcomes: seq<Outcome>, id: string, text: string) {
    exists k :: 0 <= k < |outcomes| && outcomes[k].Done? && Lists(format, outcomes[k].published, id, text)
  }

  predicate SomeRunBrings(format: Json -> string, runs: seq<Run>, id: string, text: string) {
    exists i :: 0 <= i < |runs| && Brings(format, runs[i].outcomes, id, text)
  }

  lemma PublishOneStands(format: Json -> string, working: Published, one: (string, Json), id: string, text: string)
    ensures Stands(format, PublishOne(format, working, one.0, one.1), id, text) <==>
              Stands(format, working, id, text) || (one.0 == id && format(one.1) == text)
  {
    var after := PublishOne(format, working, one.0, one.1);
    var values := if one.0 in working then working[one.0] else [];
    if one.0 == id {
      if HasText(format, values, format(one.1)) {
        var v :| v in values && format(v) == format(one.1);
        var i :| 0 <= i < |values| && values[i] == v;
      } else {
        assert after[id] == values + [one.1];
        assert after[id][|values|] == one.1;
        assert forall i :: 0 <= i < |values| ==> after[id][i] == values[i];
      }
    }
  }

  lemma {:induction false} PublishStands(format: Json -> string, working: Published, values: seq<(string, Json)>,
                                         id: string, text: string)
    ensures Stands(format, Publish(format, working, values), id, text) <==>
              Stands(format, working, id, text) || Lists(format, values, id, text)
    decreases |values|
  {
    if values != [] {
      var front, last := values[..|values| - 1], values[|values| - 1];
      PublishStands(format, working, front, id, text);
      PublishOneStands(format, Publish(format, working, front), last, id, text);
      ListsGrows(format, values, id, text);
    }
  }

  lemma ListsGrows(format: Json -> string, values: seq<(string, Json)>, id: string, text: string)
    requires values != []
    ensures var front, last := values[..|values| - 1], values[|values| - 1];
            Lists(format, values, id, text) <==>
              Lists(format, front, id, text) || (last.0 == id && format(last.1) == text)
  {
    var front := values[..|values| - 1];
    assert forall i :: 0 <= i < |front| ==> front[i] == values[i];
  }

  lemma {:induction false} OutcomesStand(lib: Library, start: Published, outcomes: seq<Outcome>, id: string,
                                         text: string)
    ensures Stands(lib.format, PublishedBy(lib, start, outcomes), id, text) <==>
              Stands(lib.format, start, id, text) || Brings(lib.format, outcomes, id, text)
    decreases |outcomes|
  {
    if outcomes != [] {
      var front, last := outcomes[..|outcomes| - 1], outcomes[|outcomes| - 1];
      OutcomesStand(lib, start, front, id, text);
      assert forall k :: 0 <= k < |front| ==> front[k] == outcomes[k];
      if last.Done? {
        PublishStands(lib.format, PublishedBy(lib, start, front), last.published, id, text);
      }
      assert Brings(lib.format, outcomes, id, text) <==>
             Brings(lib.format, front, id, text) || (last.Done? && Lists(lib.format, last.published, id, text));
    }
  }

  lemma RunsBringMore(format: Json -> string, runs: seq<Run>, id: string, text: string)
    requires runs != []
    ensures SomeRunBrings(format, runs, id, text) <==>
              SomeRunBrings(format, runs[..|runs| - 1], id, text) ||
              Brings(format, runs[|runs| - 1].outcomes, id, text)
  {
    var front := runs[..|runs| - 1];
    assert forall i :: 0 <= i < |front| ==> front[i] == runs[i];
  }

  lemma {:induction false} RunsStand(lib: Library, api: Backend, start: Published, runs: seq<Run>,
                                     pending: seq<Checkpoint>, working: Published, calls: nat, id: string, text: string)
    requires StagedByRuns(lib, api, start, runs, pending, working, calls)
    ensures Stands(lib.format, working, id, text) <==>
              Stands(lib.format, start, id, text) || SomeRunBrings(lib.format, runs, id, text)
    decreases |runs|
  {
    if runs != [] {
      var front, run := runs[..|runs| - 1], runs[|runs| - 1];
      var before := StagedBefore(lib, api, start, runs, pending, working, calls);
      RunsStand(lib, api, start, front, before, run.seen, CallCount(front), id, text);
      OutcomesStand(lib, run.seen, run.outcomes, id, text);
      RunsBringMore(lib.format, runs, id, text);
    }
  }

  /** The run at `i` saw what stood at the start and what the runs before it brought. */
  predicate Saw(lib: Library, start: Published, runs: seq<Run>, i: nat, id: string, text: string)
    requires i < |runs|
  {
    Stands(lib.format, runs[i].seen, id, text) <==>
      Stands(lib.format, start, id, text) || SomeRunBrings(lib.format, runs[..i], id, text)
  }

  predicate AllSaw(lib: Library, start: Published, runs: seq<Run>, id: string, text: string) {
    forall i: nat :: i < |runs| ==> Saw(lib, start, runs, i, id, text)
  }

  lemma VisitSees(lib: Library, api: Backend, completed: set<string>, start: Published, op: ApiOperation, cycle: Cycle,
                  id: string, text: string)
    requires IsStaged(lib, api, start, cycle) && AllSaw(lib, start, cycle.runs, id, text)
    requires Visit(lib, api, completed, op, cycle).Ok?
    ensures AllSaw(lib, start, Visit(lib, api, completed, op, cycle).value.cycle.runs, id, text)
  {
    RunsStand(lib, api, start, cycle.runs, cycle.pending, cycle.working, cycle.calls, id, text);
    if Visit(lib, api, completed, op, cycle).value.progress {
      VisitRuns(lib, api, completed, op, cycle);
      SawMore(lib, start, cycle.runs, Visit(lib, api, completed, op, cycle).value.cycle.runs[|cycle.runs|], id, text);
    }
  }

  lemma SawMore(lib: Library, start: Published, runs: seq<Run>, run: Run, id: string, text: string)
    requires AllSaw(lib, start, runs, id, text)
    requires Stands(lib.format, run.seen, id, text) <==>
               Stands(lib.format, start, id, text) || SomeRunBrings(lib.format, runs, id, text)
    ensures AllSaw(lib, start, runs + [run], id, text)
  {
    forall i: nat | i < |runs + [run]| ensures Saw(lib, start, runs + [run], i, id, text) {
      assert (runs + [run])[..|runs|] == runs;
      if i < |runs| {
        assert Saw(lib, start, runs, i, id, text) && (runs + [run])[..i] == runs[..i];
      }
    }
  }

  lemma CycleSees(lib: Library, api: Backend, completed: set<string>, ops: seq<ApiOperation>, values: Published,
                  id: string, text: string)
    requires Passes(lib, api, completed, ops, NewCycle(values)).Ok?
    ensures AllSaw(lib, values, Passes(lib, api, completed, ops, NewCycle(values)).value.runs, id, text)
  {
    var saw := (c: Cycle) => IsStaged(lib, api, values, c) && AllSaw(lib, values, c.runs, id, text);
    forall c, i | 0 <= i < |ops| && saw(c) && Visit(lib, api, completed, ops[i], c).Ok?
      ensures saw(Visit(lib, api, completed, ops[i], c).value.cycle)
    {
      VisitStages(lib, api, completed, values, ops[i], c);
      VisitSees(lib, api, completed, values, ops[i], c, id, text);
    }
    PassesKeep(saw, lib, api, completed, ops, NewCycle(values));
  }

  // ---- no value from elsewhere ----

  predicate Holds(values: Published, id: string, v: Json) {
    id in values && v in values[id]
  }

  /** A call that ended well brought this very value for the id. */
  predicate BringsValue(outcomes: seq<Outcome>, id: string, v: Json) {
    exists k :: 0 <= k < |outcomes| && outcomes[k].Done? && (id, v) in outcomes[k].published
  }

  predicate SomeRunBringsValue(runs: seq<Run>, id: string, v: Json) {
    exists i :: 0 <= i < |runs| && BringsValue(runs[i].outcomes, id, v)
  }

  lemma {:induction false} PublishDraws(format: Json -> string, working: Published, values: seq<(string, Json)>,
                                        id: string, v: Json)
    requires Holds(Publish(format, working, values), id, v)
    ensures Holds(working, id, v) || (id, v) in values
    decreases |values|
  {
    if values != [] {
      var front, last := values[..|values| - 1], values[|values| - 1];
      if Holds(Publish(format, working, front), id, v) {
        PublishDraws(format, working, front, id, v);
      } else {
        assert last == (id, v);
      }
    }
  }

  lemma {:induction false} OutcomesDraw(lib: Library, start: Published, outcomes: seq<Outcome>, id: string, v: Json)
    requires Holds(PublishedBy(lib, start, outcomes), id, v)
    ensures Holds(start, id, v) || BringsValue(outcomes, id, v)
    decreases |outcomes|
  {
    if outcomes != [] {
      var front, last := outcomes[..|outcomes| - 1], outcomes[|outcomes| - 1];
      if last.Done? {
        PublishDraws(lib.format, PublishedBy(lib, start, front), last.published, id, v);
      }
      if Holds(PublishedBy(lib, start, front), id, v) {
        OutcomesDraw(lib, start, front, id, v);
        assert forall k :: 0 <= k < |front| ==> front[k] == outcomes[k];
      }
    }
  }

  lemma {:induction false} RunsDraw(lib: Library, api: Backend, start: Published, runs: seq<Run>,
                                    pending: seq<Checkpoint>, working: Published, calls: nat, id: string, v: Json)
    requires StagedByRuns(lib, api, start, runs, pending, working, calls) && Holds(working, id, v)
    ensures Holds(start, id, v) || SomeRunBringsValue(runs, id, v)
    decreases |runs|
  {
    if runs != [] {
      var front, run := runs[..|runs| - 1], runs[|runs| - 1];
      var before := StagedBefore(lib, api, start, runs, pending, working, calls);
      OutcomesDraw(lib, run.seen, run.outcomes, id, v);
      if Holds(run.seen, id, v) {
        RunsDraw(lib, api, start, front, before, run.seen, CallCount(front), id, v);
        assert forall i :: 0 <= i < |front| ==> front[i] == runs[i];
      }
    }
  }

  // ---- no text twice ----

  predicate NoTextTwice(format: Json -> string, values: Published) {
    forall id :: id in values ==> DistinctTexts(format, values[id])
  }

  lemma {:induction false} PublishOnce(format: Json -> string, working: Published, values: seq<(string, Json)>)
    requires NoTextTwice(format, working)
    ensures NoTextTwice(format, Publish(format, working, values))
    decreases |values|
  {
    if values != [] {
      var last := values[|values| - 1];
      PublishOnce(format, working, values[..|values| - 1]);
      var before := Publish(format, working, values[..|values| - 1]);
      var held := if last.0 in before then before[last.0] else [];
      if !HasText(format, held, format(last.1)) {
        OneMoreText(format, held, last.1);
      }
    }
  }

  lemma {:induction false} OutcomesOnce(lib: Library, start: Published, outcomes: seq<Outcome>)
    requires NoTextTwice(lib.format, start)
    ensures NoTextTwice(lib.format, PublishedBy(lib, start, outcomes))
    decreases |outcomes|
  {
    if outcomes != [] {
      var front, last := outcomes[..|outcomes| - 1], outcomes[|outcomes| - 1];
      OutcomesOnce(lib, start, front);
      if last.Done? {
        PublishOnce(lib.format, PublishedBy(lib, start, front), last.published);
      }
    }
  }

  lemma {:induction false} RunsOnce(lib: Library, api: Backend, start: Published, runs: seq<Run>,
                                    pending: seq<Checkpoint>, working: Published, calls: nat)
    requires StagedByRuns(lib, api, start, runs, pending, working, calls) && NoTextTwice(lib.format, start)
    ensures NoTextTwice(lib.format, working)
    decreases |runs|
  {
    if runs != [] {
      var front, run := runs[..|runs| - 1], runs[|runs| - 1];
      var before := StagedBefore(lib, api, start, runs, pending, working, calls);
      RunsOnce(lib, api, start, front, before, run.seen, CallCount(front));
      OutcomesOnce(lib, run.seen, run.outcomes);
    }
  }

  /** A text stands under an id at the end of a cycle exactly when it did at the start or some call
      of some run that ended well brought a value with it; every value there stood at the start or
      was brought; a run sees what stood at the start and what the runs before it brought; and lists
      without repeated texts stay so. */
  lemma CyclePublishes(lib: Library, api: Backend, completed: set<string>, ops: seq<ApiOperation>, values: Published,
                       id: string, text: string)
    requires Passes(lib, api, completed, ops, NewCycle(values)).Ok?
    ensures var cycle := Passes(lib, api, completed, ops, NewCycle(values)).value;
            && (Stands(lib.format, cycle.working, id, text) <==>
                  Stands(lib.format, values, id, text) || SomeRunBrings(lib.format, cycle.runs, id, text))
            && (forall v :: Holds(cycle.working, id, v) ==>
                              Holds(values, id, v) || SomeRunBringsValue(cycle.runs, id, v))
            && AllSaw(lib, values, cycle.runs, id, text)
            && (NoTextTwice(lib.format, values) ==> NoTextTwice(lib.format, cycle.working))
  {
    CycleStages(lib, api, completed, ops, values);
    var cycle := Passes(lib, api, completed, ops, NewCycle(values)).value;
    RunsStand(lib, api, values, cycle.runs, cycle.pending, cycle.working, cycle.calls, id, text);
    CycleSees(lib, api, completed, ops, values, id, text);
    forall v | Holds(cycle.working, id, v)
      ensures Holds(values, id, v) || SomeRunBringsValue(cycle.runs, id, v)
    {
      RunsDraw(lib, api, values, cycle.runs, cycle.pending, cycle.working, cycle.calls, id, v);
    }
    if NoTextTwice(lib.format, values) {
      RunsOnce(lib, api, values, cycle.runs, cycle.pending, cycle.working, cycle.calls);
    }
  }

  // ---- what the plan of a cycle says ----

  predicate FitRuns(runs: seq<Run>) {
    forall i :: 0 <= i < |runs| ==> |runs[i].outcomes| == |runs[i].combos| && Fit(runs[i].op, runs[i].combos)
  }

  /** The checkpoints of all calls of all runs, in order. */
  function RunCheckpoints(lib: Library, runs: seq<Run>): seq<Checkpoint>
    requires FitRuns(runs)
  {
    if runs == [] then []
    else
      var front, run := runs[..|runs| - 1], runs[|runs| - 1];
      RunCheckpoints(lib, front) + Checkpoints(lib, run.op, run.combos, run.outcomes)
  }

  lemma OneMoreRun(lib: Library, runs: seq<Run>, run: Run)
    requires FitRuns(runs) && |run.outcomes| == |run.combos| && Fit(run.op, run.combos)
    ensures FitRuns(runs + [run])
    ensures RunCheckpoints(lib, runs + [run]) ==
            RunCheckpoints(lib, runs) + Checkpoints(lib, run.op, run.combos, run.outcomes)
  {
    assert (runs + [run])[..|runs + [run]| - 1] == runs;
  }

  /** What is pending is what the runs staged. */
  predicate PendsItsRuns(lib: Library, cycle: Cycle) {
    FitRuns(cycle.runs) && cycle.pending == RunCheckpoints(lib, cycle.runs)
  }

  lemma VisitPends(lib: Library, api: Backend, completed: set<string>, op: ApiOperation, cycle: Cycle)
    requires PendsItsRuns(lib, cycle) && Visit(lib, api, completed, op, cycle).Ok?
    ensures PendsItsRuns(lib, Visit(lib, api, completed, op, cycle).value.cycle)
  {
    var turn := Visit(lib, api, completed, op, cycle).value;
    if turn.progress {
      VisitRuns(lib, api, completed, op, cycle);
      var run := turn.cycle.runs[|cycle.runs|];
      CombosStage(lib, api, op, Started(op, cycle), run.combos, |run.combos|);
      assert run.combos[..|run.combos|] == run.combos;
      OneMoreRun(lib, cycle.runs, run);
    }
  }

  lemma PendingIsOfRuns(lib: Library, api: Backend, completed: set<string>, ops: seq<ApiOperation>, values: Published)
    requires Passes(lib, api, completed, ops, NewCycle(values)).Ok?
    ensures PendsItsRuns(lib, Passes(lib, api, completed, ops, NewCycle(values)).value)
  {
    var pends := (c: Cycle) => PendsItsRuns(lib, c);
    forall c, i | 0 <= i < |ops| && pends(c) && Visit(lib, api, completed, ops[i], c).Ok?
      ensures pends(Visit(lib, api, completed, ops[i], c).value.cycle)
    {
      VisitPends(lib, api, completed, ops[i], c);
    }
    PassesKeep(pends, lib, api, completed, ops, NewCycle(values));
  }

  lemma OneMoreCall(lib: Library, op: ApiOperation, combos: seq<seq<Json>>, outcomes: seq<Outcome>, c: Checkpoint)
    requires |outcomes| == |combos| && Fit(op, combos) && combos != []
    ensures var n := |combos| - 1;
            && Fit(op, combos[..n])
            && (c in Checkpoints(lib, op, combos, outcomes) <==>
                  c in Checkpoints(lib, op, combos[..n], outcomes[..n]) ||
                  IsCheckpoint(lib, op, combos[n], outcomes[n], c))
  {
  }

  predicate CallsFor(lib: Library, op: ApiOperation, combos: seq<seq<Json>>, outcomes: seq<Outcome>, c: Checkpoint)
    requires |outcomes| == |combos| && Fit(op, combos)
  {
    exists k :: 0 <= k < |combos| && IsCheckpoint(lib, op, combos[k], outcomes[k], c)
  }

  lemma CallsForMore(lib: Library, op: ApiOperation, combos: seq<seq<Json>>, outcomes: seq<Outcome>, c: Checkpoint)
    requires |outcomes| == |combos| && Fit(op, combos) && combos != []
    ensures var n := |combos| - 1;
            && Fit(op, combos[..n])
            && (CallsFor(lib, op, combos, outcomes, c) <==>
                  CallsFor(lib, op, combos[..n], outcomes[..n], c) ||
                  IsCheckpoint(lib, op, combos[n], outcomes[n], c))
  {
    var n := |combos| - 1;
    assert Fit(op, combos[..n]);
    assert forall k :: 0 <= k < n ==> combos[..n][k] == combos[k] && outcomes[..n][k] == outcomes[k];
  }

  /** A checkpoint is staged exactly for a call of an incremental operation that ended well with
      something to resume from. */
  lemma {:induction false} CheckpointsHold(lib: Library, op: ApiOperation, combos: seq<seq<Json>>,
                                           outcomes: seq<Outcome>, c: Checkpoint)
    requires |outcomes| == |combos| && Fit(op, combos)
    ensures c in Checkpoints(lib, op, combos, outcomes) <==> CallsFor(lib, op, combos, outcomes, c)
    decreases |combos|
  {
    if combos != [] {
      var n := |combos| - 1;
      OneMoreCall(lib, op, combos, outcomes, c);
      CallsForMore(lib, op, combos, outcomes, c);
      CheckpointsHold(lib, op, combos[..n], outcomes[..n], c);
    }
  }

  predicate IsCheckpoint(lib: Library, op: ApiOperation, combo: seq<Json>, outcome: Outcome, c: Checkpoint)
    requires |combo| == |op.params|
  {
    && op.mode == Incremental && outcome.Done? && outcome.resume == Some(c.resume)
    && c.key == CheckpointKey(lib, op.path, op.pagination, ParamsOf(lib, op.params, combo, |op.params|))
  }

  /** A plan is what the runs of its cycle came to: its pending checkpoints are theirs in order, its
      next values are those that stood at the start or were brought, and its two halves are the
      relaxed operations of the runs. */
  lemma PlanIsOfItsRuns(lib: Library, api: Backend, ops: seq<ApiOperation>, values: Published, completed: set<string>,
                        id: string, text: string)
    requires CyclePlanOf(lib, api, ops, values, completed).Ok?
    ensures Passes(lib, api, completed, ops, NewCycle(values)).Ok?
    ensures var plan := CyclePlanOf(lib, api, ops, values, completed).value;
            var runs := Passes(lib, api, completed, ops, NewCycle(values)).value.runs;
            && FitRuns(runs) && plan.pending == RunCheckpoints(lib, runs)
            && (Stands(lib.format, plan.nextValues, id, text) <==>
                  Stands(lib.format, values, id, text) || SomeRunBrings(lib.format, runs, id, text))
            && plan.upsert == RelaxedPlan(PlannedOps(runs, false))
            && FullSyncTables(lib.format, RelaxedPlan(PlannedOps(runs, true))) == Ok(plan.fullSync)
  {
    var cycle := Passes(lib, api, completed, ops, NewCycle(values)).value;
    CycleKeeps(lib, api, completed, ops, values);
    CyclePublishes(lib, api, completed, ops, values, id, text);
    PendingIsOfRuns(lib, api, completed, ops, values);
  }
}
