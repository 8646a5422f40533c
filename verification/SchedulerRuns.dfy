/** What a planning cycle does, whatever the API answers. */
module SchedulerRuns {
  import opened Common
  import opened Plans
  import opened Values
  import opened Params
  import opened Scheduler

  // ---- published values only grow ----

  predicate Extends(before: Published, after: Published) {
    forall id :: id in before ==> id in after && before[id] <= after[id]
  }

  lemma ExtendsTransitive(a: Published, b: Published, c: Published)
    requires Extends(a, b) && Extends(b, c)
    ensures Extends(a, c)
  {
  }

  lemma {:induction false} PublishExtends(format: Json -> string, working: Published, values: seq<(string, Json)>)
    ensures Extends(working, Publish(format, working, values))
    decreases |values|
  {
    if values != [] {
      PublishExtends(format, working, values[..|values| - 1]);
    }
  }

  lemma {:induction false} CombosExtend(lib: Library, api: Backend, op: ApiOperation, cycle: Cycle,
                                        combos: seq<seq<Json>>, n: nat)
    requires n <= |combos| && Fit(op, combos) && RunCombos(lib, api, op, cycle, combos, n).Ok?
    ensures Extends(cycle.working, RunCombos(lib, api, op, cycle, combos, n).value.cycle.working)
    decreases n
  {
    if n > 0 {
      CombosExtend(lib, api, op, cycle, combos, n - 1);
      var before := RunCombos(lib, api, op, cycle, combos, n - 1).value;
      var outcome := api(before.cycle.calls, op, ParamsOf(lib, op.params, combos[n - 1], |op.params|));
      PublishExtends(lib.format, before.cycle.working, outcome.published);
    }
  }

  // ---- what every visit keeps, every cycle keeps ----

  ghost predicate Kept(inv: Cycle -> bool, lib: Library, api: Backend, completed: set<string>, ops: seq<ApiOperation>) {
    forall cycle, i :: 0 <= i < |ops| && inv(cycle) && Visit(lib, api, completed, ops[i], cycle).Ok? ==>
      inv(Visit(lib, api, completed, ops[i], cycle).value.cycle)
  }

  lemma {:induction false} PassKeeps(inv: Cycle -> bool, lib: Library, api: Backend, completed: set<string>,
                                     ops: seq<ApiOperation>, cycle: Cycle, n: nat)
    requires Kept(inv, lib, api, completed, ops) && inv(cycle)
    requires n <= |ops| && Pass(lib, api, completed, ops, cycle, n).Ok?
    ensures inv(Pass(lib, api, completed, ops, cycle, n).value.cycle)
    decreases n
  {
    if n > 0 {
      PassKeeps(inv, lib, api, completed, ops, cycle, n - 1);
    }
  }

  lemma {:induction false} PassesKeep(inv: Cycle -> bool, lib: Library, api: Backend, completed: set<string>,
                                      ops: seq<ApiOperation>, cycle: Cycle)
    requires Kept(inv, lib, api, completed, ops) && inv(cycle)
    requires Passes(lib, api, completed, ops, cycle).Ok?
    ensures inv(Passes(lib, api, completed, ops, cycle).value)
    decreases |Paths(ops) - cycle.fetched|
  {
    PassKeeps(inv, lib, api, completed, ops, cycle, |ops|);
    PassFetches(lib, api, completed, ops, cycle, |ops|);
    var turn := Pass(lib, api, completed, ops, cycle, |ops|).value;
    if turn.progress {
      LessToFetch(Paths(ops), cycle.fetched, turn.cycle.fetched);
      PassesKeep(inv, lib, api, completed, ops, turn.cycle);
    }
  }

  // ---- each operation at most once ----

  predicate Ran(runs: seq<Run>, path: string) {
    exists i :: 0 <= i < |runs| && runs[i].op.path == path
  }

  /** The path belongs to a one-shot operation that is complete. */
  predicate IsDone(completed: set<string>, ops: seq<ApiOperation>, path: string) {
    path in completed && exists i :: 0 <= i < |ops| && ops[i].path == path && ops[i].mode == OneShot
  }

  predicate DistinctPaths(ops: seq<ApiOperation>) {
    forall i, j :: 0 <= i < j < |ops| ==> ops[i].path != ops[j].path
  }

  /** The runs are of different operations, none a one-shot operation that is complete, and what
      counts as fetched was run now or is a complete one-shot operation's path. */
  predicate OncePerCycle(completed: set<string>, ops: seq<ApiOperation>, cycle: Cycle) {
    && (forall i, j :: 0 <= i < j < |cycle.runs| ==> cycle.runs[i].op.path != cycle.runs[j].op.path)
    && (forall i :: 0 <= i < |cycle.runs| ==>
          cycle.runs[i].op in ops && cycle.runs[i].op.path in cycle.fetched &&
          !(cycle.runs[i].op.mode == OneShot && cycle.runs[i].op.path in completed))
    && (forall p :: p in cycle.fetched ==> Ran(cycle.runs, p) || IsDone(completed, ops, p))
  }

  lemma RanMore(runs: seq<Run>, run: Run)
    ensures forall p :: Ran(runs, p) ==> Ran(runs + [run], p)
    ensures Ran(runs + [run], run.op.path)
  {
    assert (runs + [run])[|runs|] == run;
    forall p | Ran(runs, p) ensures Ran(runs + [run], p) {
      var i :| 0 <= i < |runs| && runs[i].op.path == p;
      assert (runs + [run])[i] == runs[i];
    }
  }

  /** A visit that runs the operation: its path is new and its run is the last one. */
  lemma VisitRuns(lib: Library, api: Backend, completed: set<string>, op: ApiOperation, cycle: Cycle)
    requires Visit(lib, api, completed, op, cycle).Ok? && Visit(lib, api, completed, op, cycle).value.progress
    ensures var after := Visit(lib, api, completed, op, cycle).value.cycle;
            && op.path !in cycle.fetched && !(op.mode == OneShot && op.path in completed)
            && after.fetched == cycle.fetched + {op.path} && |after.runs| == |cycle.runs| + 1
            && after.runs == cycle.runs + [after.runs[|cycle.runs|]]
            && var run := after.runs[|cycle.runs|];
               && run.op == op && run.seen == cycle.working
               && Combos(lib, op, cycle.working) == Ok(Some(run.combos)) && |run.outcomes| == |run.combos|
               && Fit(op, run.combos)
               && RunCombos(lib, api, op, Started(op, cycle), run.combos, |run.combos|).Ok?
               && RunCombos(lib, api, op, Started(op, cycle), run.combos, |run.combos|).value.outcomes == run.outcomes
  {
    CombosFit(lib, op, cycle.working);
    var combos := Combos(lib, op, cycle.working).value.value;
    CombosKeepFetched(lib, api, op, Started(op, cycle), combos, |combos|);
  }

  lemma VisitOnce(lib: Library, api: Backend, completed: set<string>, ops: seq<ApiOperation>, op: ApiOperation,
                  cycle: Cycle)
    requires OncePerCycle(completed, ops, cycle) && op in ops && Visit(lib, api, completed, op, cycle).Ok?
    ensures OncePerCycle(completed, ops, Visit(lib, api, completed, op, cycle).value.cycle)
  {
    var turn := Visit(lib, api, completed, op, cycle).value;
    if turn.progress {
      VisitRuns(lib, api, completed, op, cycle);
      RanMore(cycle.runs, turn.cycle.runs[|cycle.runs|]);
    } else if turn.cycle.fetched != cycle.fetched {
      var i :| 0 <= i < |ops| && ops[i] == op;
      assert IsDone(completed, ops, op.path);
    }
  }

  // ---- every run uses what was published ----

  /** The combinations are those of the values seen, and the values seen lie between those at the
      start of the cycle and those at its end. */
  predicate RunIsDue(lib: Library, start: Published, end: Published, run: Run) {
    && Combos(lib, run.op, run.seen) == Ok(Some(run.combos)) && |run.outcomes| == |run.combos|
    && Extends(start, run.seen) && Extends(run.seen, end)
  }

  predicate RunsAreDue(lib: Library, start: Published, cycle: Cycle) {
    && Extends(start, cycle.working)
    && forall i :: 0 <= i < |cycle.runs| ==> RunIsDue(lib, start, cycle.working, cycle.runs[i])
  }

  lemma VisitExtends(lib: Library, api: Backend, completed: set<string>, op: ApiOperation, cycle: Cycle)
    requires Visit(lib, api, completed, op, cycle).Ok?
    ensures Extends(cycle.working, Visit(lib, api, completed, op, cycle).value.cycle.working)
  {
    var turn := Visit(lib, api, completed, op, cycle).value;
    if turn.progress {
      CombosFit(lib, op, cycle.working);
      var combos := Combos(lib, op, cycle.working).value.value;
      CombosExtend(lib, api, op, Started(op, cycle), combos, |combos|);
    }
  }

  lemma VisitIsDue(lib: Library, api: Backend, completed: set<string>, start: Published, op: ApiOperation, cycle: Cycle)
    requires RunsAreDue(lib, start, cycle) && Visit(lib, api, completed, op, cycle).Ok?
    ensures RunsAreDue(lib, start, Visit(lib, api, completed, op, cycle).value.cycle)
  {
    var turn := Visit(lib, api, completed, op, cycle).value;
    VisitExtends(lib, api, completed, op, cycle);
    ExtendsTransitive(start, cycle.working, turn.cycle.working);
    if turn.progress {
      VisitRuns(lib, api, completed, op, cycle);
    }
    forall i | 0 <= i < |cycle.runs| ensures RunIsDue(lib, start, turn.cycle.working, cycle.runs[i]) {
      ExtendsTransitive(cycle.runs[i].seen, cycle.working, turn.cycle.working);
    }
  }

  // ---- the plan is what the runs came to ----

  function OutcomeOps(outcomes: seq<Outcome>): seq<Op> {
    if outcomes == [] then []
    else OutcomeOps(outcomes[..|outcomes| - 1]) +
         (if outcomes[|outcomes| - 1].Done? then outcomes[|outcomes| - 1].ops else [])
  }

  /** The operations of the runs of one half of the plan: each run's creates once, then what its
      calls came to, in order. */
  function PlannedOps(runs: seq<Run>, reload: bool): seq<Op> {
    if runs == [] then []
    else
      var before, run := PlannedOps(runs[..|runs| - 1], reload), runs[|runs| - 1];
      if (run.op.mode == FullReload) == reload then before + run.op.creates + OutcomeOps(run.outcomes) else before
  }

  predicate PlanIsOfRuns(cycle: Cycle) {
    cycle.upsert == PlannedOps(cycle.runs, false) && cycle.reload == PlannedOps(cycle.runs, true)
  }

  lemma Reassociate(a: seq<Op>, b: seq<Op>, c: seq<Op>)
    ensures a + (b + c) == a + b + c
  {
  }

  lemma {:induction false} CombosAdd(lib: Library, api: Backend, op: ApiOperation, cycle: Cycle, combos: seq<seq<Json>>,
                                     n: nat)
    requires n <= |combos| && Fit(op, combos) && RunCombos(lib, api, op, cycle, combos, n).Ok?
    ensures var after := RunCombos(lib, api, op, cycle, combos, n).value;
            var added := AddOps(cycle, op.mode, OutcomeOps(after.outcomes));
            after.cycle.upsert == added.upsert && after.cycle.reload == added.reload
    decreases n
  {
    if n == 0 {
      assert cycle.reload + [] == cycle.reload && cycle.upsert + [] == cycle.upsert;
    } else {
      CombosAdd(lib, api, op, cycle, combos, n - 1);
      var before, after :=
          RunCombos(lib, api, op, cycle, combos, n - 1).value, RunCombos(lib, api, op, cycle, combos, n).value;
      var last := after.outcomes[|after.outcomes| - 1];
      assert after.outcomes[..|after.outcomes| - 1] == before.outcomes;
      Reassociate(cycle.reload, OutcomeOps(before.outcomes), last.ops);
      Reassociate(cycle.upsert, OutcomeOps(before.outcomes), last.ops);
    }
  }

  lemma VisitPlans(lib: Library, api: Backend, completed: set<string>, op: ApiOperation, cycle: Cycle)
    requires PlanIsOfRuns(cycle) && Visit(lib, api, completed, op, cycle).Ok?
    ensures PlanIsOfRuns(Visit(lib, api, completed, op, cycle).value.cycle)
  {
    var turn := Visit(lib, api, completed, op, cycle).value;
    if turn.progress {
      VisitRuns(lib, api, completed, op, cycle);
      var run := turn.cycle.runs[|cycle.runs|];
      assert turn.cycle.runs[..|turn.cycle.runs| - 1] == cycle.runs;
      CombosAdd(lib, api, op, Started(op, cycle), run.combos, |run.combos|);
    }
  }

  /** The n-th call of the cycle is for the n-th combination, counted over all runs in order. */
  function CallCount(runs: seq<Run>): nat {
    if runs == [] then 0 else CallCount(runs[..|runs| - 1]) + |runs[|runs| - 1].combos|
  }

  predicate Asked(lib: Library, api: Backend, op: ApiOperation, combos: seq<seq<Json>>, outcomes: seq<Outcome>,
                  first: nat) {
    && |outcomes| == |combos| && Fit(op, combos)
    && forall k :: 0 <= k < |combos| ==> Answers(lib, api, op, combos[k], outcomes[k], first + k)
  }

  predicate Answers(lib: Library, api: Backend, op: ApiOperation, combo: seq<Json>, outcome: Outcome, call: nat)
    requires |combo| == |op.params|
  {
    outcome.Done? && outcome == api(call, op, ParamsOf(lib, op.params, combo, |op.params|))
  }

  /** The checkpoint of one call, if it has something to resume from. */
  function CheckpointOf(lib: Library, op: ApiOperation, combo: seq<Json>, outcome: Outcome): seq<Checkpoint>
    requires |combo| == |op.params|
  {
    if outcome.Done? && op.mode == Incremental && outcome.resume.Some?
    then [Checkpoint(CheckpointKey(lib, op.path, op.pagination, ParamsOf(lib, op.params, combo, |op.params|)),
                     outcome.resume.value)]
    else []
  }

  function Checkpoints(lib: Library, op: ApiOperation, combos: seq<seq<Json>>, outcomes: seq<Outcome>): seq<Checkpoint>
    requires |outcomes| == |combos| && Fit(op, combos)
  {
    if combos == [] then []
    else Checkpoints(lib, op, combos[..|combos| - 1], outcomes[..|combos| - 1]) +
         CheckpointOf(lib, op, combos[|combos| - 1], outcomes[|combos| - 1])
  }

  function PublishedBy(lib: Library, start: Published, outcomes: seq<Outcome>): Published {
    if outcomes == [] then start
    else
      var before, last := PublishedBy(lib, start, outcomes[..|outcomes| - 1]), outcomes[|outcomes| - 1];
      if last.Done? then Publish(lib.format, before, last.published) else before
  }

  /** The runs are the calls of the cycle, and what is staged and published is what they came to. */
  ghost predicate StagedByRuns(lib: Library, api: Backend, start: Published, runs: seq<Run>, pending: seq<Checkpoint>,
                               working: Published, calls: nat) {
    if runs == [] then pending == [] && working == start && calls == 0
    else
      var run, first := runs[|runs| - 1], CallCount(runs[..|runs| - 1]);
      && Asked(lib, api, run.op, run.combos, run.outcomes, first) && calls == first + |run.combos|
      && working == PublishedBy(lib, run.seen, run.outcomes)
      && exists before: seq<Checkpoint> :: pending == before + Checkpoints(lib, run.op, run.combos, run.outcomes)
           && StagedByRuns(lib, api, start, runs[..|runs| - 1], before, run.seen, first)
  }

  /** What was staged before the last run. */
  lemma StagedBefore(lib: Library, api: Backend, start: Published, runs: seq<Run>, pending: seq<Checkpoint>,
                     working: Published, calls: nat) returns (before: seq<Checkpoint>)
    requires runs != [] && StagedByRuns(lib, api, start, runs, pending, working, calls)
    ensures var run, first := runs[|runs| - 1], CallCount(runs[..|runs| - 1]);
            && StagedByRuns(lib, api, start, runs[..|runs| - 1], before, run.seen, first)
            && Asked(lib, api, run.op, run.combos, run.outcomes, first) && calls == first + |run.combos|
            && working == PublishedBy(lib, run.seen, run.outcomes)
            && pending == before + Checkpoints(lib, run.op, run.combos, run.outcomes)
  {
    var run, first := runs[|runs| - 1], CallCount(runs[..|runs| - 1]);
    before :| pending == before + Checkpoints(lib, run.op, run.combos, run.outcomes) &&
        StagedByRuns(lib, api, start, runs[..|runs| - 1], before, run.seen, first);
  }

  lemma AskedMore(lib: Library, api: Backend, op: ApiOperation, combos: seq<seq<Json>>, combo: seq<Json>,
                  outcomes: seq<Outcome>, outcome: Outcome, first: nat)
    requires Asked(lib, api, op, combos, outcomes, first) && |combo| == |op.params|
    requires Answers(lib, api, op, combo, outcome, first + |combos|)
    ensures Asked(lib, api, op, combos + [combo], outcomes + [outcome], first)
  {
  }

  lemma CallAnswers(lib: Library, api: Backend, op: ApiOperation, before: Calls, combo: seq<Json>)
    returns (outcome: Outcome)
    requires |combo| == |op.params| && CallNext(lib, api, op, before, combo).Ok?
    ensures Answers(lib, api, op, combo, outcome, before.cycle.calls)
    ensures var after := CallNext(lib, api, op, before, combo).value;
            after.outcomes == before.outcomes + [outcome] && after.cycle.calls == before.cycle.calls + 1
  {
    outcome := api(before.cycle.calls, op, ParamsOf(lib, op.params, combo, |op.params|));
  }

  lemma AskNext(lib: Library, api: Backend, op: ApiOperation, before: Calls, combos: seq<seq<Json>>, n: nat, first: nat)
    requires n < |combos| && Fit(op, combos) && CallNext(lib, api, op, before, combos[n]).Ok?
    requires Asked(lib, api, op, combos[..n], before.outcomes, first) && before.cycle.calls == first + n
    ensures var after := CallNext(lib, api, op, before, combos[n]).value;
            Asked(lib, api, op, combos[..n + 1], after.outcomes, first) && after.cycle.calls == first + n + 1
  {
    var outcome := CallAnswers(lib, api, op, before, combos[n]);
    AskedMore(lib, api, op, combos[..n], combos[n], before.outcomes, outcome, first);
    assert combos[..n + 1] == combos[..n] + [combos[n]];
  }

  lemma OneCombo(lib: Library, api: Backend, op: ApiOperation, cycle: Cycle, combos: seq<seq<Json>>, n: nat)
    requires 0 < n <= |combos| && Fit(op, combos) && RunCombos(lib, api, op, cycle, combos, n).Ok?
    ensures RunCombos(lib, api, op, cycle, combos, n - 1).Ok? && |combos[n - 1]| == |op.params|
    ensures RunCombos(lib, api, op, cycle, combos, n) ==
            CallNext(lib, api, op, RunCombos(lib, api, op, cycle, combos, n - 1).value, combos[n - 1])
  {
  }

  lemma {:induction false} CombosAsk(lib: Library, api: Backend, op: ApiOperation, cycle: Cycle, combos: seq<seq<Json>>,
                                     n: nat)
    requires n <= |combos| && Fit(op, combos) && RunCombos(lib, api, op, cycle, combos, n).Ok?
    ensures var after := RunCombos(lib, api, op, cycle, combos, n).value;
            Asked(lib, api, op, combos[..n], after.outcomes, cycle.calls) && after.cycle.calls == cycle.calls + n
    decreases n
  {
    if n > 0 {
      CombosAsk(lib, api, op, cycle, combos, n - 1);
      OneCombo(lib, api, op, cycle, combos, n);
      AskNext(lib, api, op, RunCombos(lib, api, op, cycle, combos, n - 1).value, combos, n - 1, cycle.calls);
    }
  }

  lemma {:induction false} CombosPublish(lib: Library, api: Backend, op: ApiOperation, cycle: Cycle,
                                         combos: seq<seq<Json>>, n: nat)
    requires n <= |combos| && Fit(op, combos) && RunCombos(lib, api, op, cycle, combos, n).Ok?
    ensures var after := RunCombos(lib, api, op, cycle, combos, n).value;
            after.cycle.working == PublishedBy(lib, cycle.working, after.outcomes)
    decreases n
  {
    if n > 0 {
      CombosPublish(lib, api, op, cycle, combos, n - 1);
      var before, after :=
          RunCombos(lib, api, op, cycle, combos, n - 1).value, RunCombos(lib, api, op, cycle, combos, n).value;
      assert after.outcomes[..|after.outcomes| - 1] == before.outcomes;
    }
  }

  lemma CallStages(lib: Library, api: Backend, op: ApiOperation, before: Calls, combo: seq<Json>)
    requires |combo| == |op.params| && CallNext(lib, api, op, before, combo).Ok?
    ensures var after := CallNext(lib, api, op, before, combo).value;
            && |after.outcomes| == |before.outcomes| + 1 && after.outcomes[..|before.outcomes|] == before.outcomes
            && after.cycle.pending ==
               before.cycle.pending + CheckpointOf(lib, op, combo, after.outcomes[|before.outcomes|])
  {
  }

  lemma JoinCheckpoints(a: seq<Checkpoint>, b: seq<Checkpoint>, c: seq<Checkpoint>)
    ensures a + b + c == a + (b + c)
  {
  }

  lemma CheckpointsMore(lib: Library, op: ApiOperation, combos: seq<seq<Json>>, outcomes: seq<Outcome>, n: nat)
    requires 0 < n == |outcomes| <= |combos| && Fit(op, combos)
    ensures Fit(op, combos[..n]) && Fit(op, combos[..n - 1])
    ensures Checkpoints(lib, op, combos[..n], outcomes)
         == Checkpoints(lib, op, combos[..n - 1], outcomes[..n - 1]) +
            CheckpointOf(lib, op, combos[n - 1], outcomes[n - 1])
  {
    assert combos[..n][..n - 1] == combos[..n - 1];
  }

  lemma {:induction false} CombosStage(lib: Library, api: Backend, op: ApiOperation, cycle: Cycle,
                                       combos: seq<seq<Json>>, n: nat)
    requires n <= |combos| && Fit(op, combos) && RunCombos(lib, api, op, cycle, combos, n).Ok?
    ensures var after := RunCombos(lib, api, op, cycle, combos, n).value;
            |after.outcomes| == n && Fit(op, combos[..n])
            && after.cycle.pending == cycle.pending + Checkpoints(lib, op, combos[..n], after.outcomes)
    decreases n
  {
    if n > 0 {
      CombosStage(lib, api, op, cycle, combos, n - 1);
      var before, after :=
          RunCombos(lib, api, op, cycle, combos, n - 1).value, RunCombos(lib, api, op, cycle, combos, n).value;
      CallStages(lib, api, op, before, combos[n - 1]);
      CheckpointsMore(lib, op, combos, after.outcomes, n);
      JoinCheckpoints(cycle.pending, Checkpoints(lib, op, combos[..n - 1], before.outcomes),
                      CheckpointOf(lib, op, combos[n - 1], after.outcomes[n - 1]));
    }
  }

  ghost predicate IsStaged(lib: Library, api: Backend, start: Published, cycle: Cycle) {
    cycle.calls == CallCount(cycle.runs) &&
    StagedByRuns(lib, api, start, cycle.runs, cycle.pending, cycle.working, cycle.calls)
  }

  lemma VisitStages(lib: Library, api: Backend, completed: set<string>, start: Published, op: ApiOperation,
                    cycle: Cycle)
    requires IsStaged(lib, api, start, cycle) && Visit(lib, api, completed, op, cycle).Ok?
    ensures IsStaged(lib, api, start, Visit(lib, api, completed, op, cycle).value.cycle)
  {
    var turn := Visit(lib, api, completed, op, cycle).value;
    if turn.progress {
      VisitRuns(lib, api, completed, op, cycle);
      var after, run := turn.cycle, turn.cycle.runs[|cycle.runs|];
      assert after.runs[..|after.runs| - 1] == cycle.runs;
      CombosAsk(lib, api, op, Started(op, cycle), run.combos, |run.combos|);
      CombosPublish(lib, api, op, Started(op, cycle), run.combos, |run.combos|);
      CombosStage(lib, api, op, Started(op, cycle), run.combos, |run.combos|);
      assert run.combos[..|run.combos|] == run.combos;
      assert after.pending == cycle.pending + Checkpoints(lib, run.op, run.combos, run.outcomes);
    }
  }

  // ---- the loop ends at a fixpoint ----

  predicate Waits(lib: Library, op: ApiOperation, working: Published) {
    Combos(lib, op, working) == Ok(None)
  }

  lemma {:induction false} IdlePass(lib: Library, api: Backend, completed: set<string>, ops: seq<ApiOperation>,
                                    cycle: Cycle, n: nat)
    requires n <= |ops| && Pass(lib, api, completed, ops, cycle, n).Ok? &&
             !Pass(lib, api, completed, ops, cycle, n).value.progress
    ensures var after := Pass(lib, api, completed, ops, cycle, n).value.cycle;
            && after.working == cycle.working
            && forall i :: 0 <= i < n ==> ops[i].path in after.fetched || Waits(lib, ops[i], after.working)
    decreases n
  {
    if n > 0 {
      IdlePass(lib, api, completed, ops, cycle, n - 1);
    }
  }

  lemma {:induction false} EndsIdle(lib: Library, api: Backend, completed: set<string>, ops: seq<ApiOperation>,
                                    cycle: Cycle)
    requires Passes(lib, api, completed, ops, cycle).Ok?
    ensures var after := Passes(lib, api, completed, ops, cycle).value;
            forall i :: 0 <= i < |ops| ==> ops[i].path in after.fetched || Waits(lib, ops[i], after.working)
    decreases |Paths(ops) - cycle.fetched|
  {
    var turn := Pass(lib, api, completed, ops, cycle, |ops|).value;
    PassFetches(lib, api, completed, ops, cycle, |ops|);
    if turn.progress {
      LessToFetch(Paths(ops), cycle.fetched, turn.cycle.fetched);
      EndsIdle(lib, api, completed, ops, turn.cycle);
    } else {
      IdlePass(lib, api, completed, ops, cycle, |ops|);
    }
  }

  // ---- when a cycle fails ----

  /** The parameters of an operation are never in error, and none of its calls ever is. */
  ghost predicate SoundOperation(lib: Library, api: Backend, op: ApiOperation) {
    && (forall i :: 0 <= i < |op.params| ==> SoundParam(lib, op.params[i]))
    && forall n: nat, params :: api(n, op, params).Done?
  }

  lemma SoundCall(lib: Library, api: Backend, op: ApiOperation, before: Calls, combo: seq<Json>)
    requires |combo| == |op.params| && SoundOperation(lib, api, op)
    ensures CallNext(lib, api, op, before, combo).Ok?
  {
    assert api(before.cycle.calls, op, ParamsOf(lib, op.params, combo, |op.params|)).Done?;
  }

  lemma {:induction false} SoundCalls(lib: Library, api: Backend, op: ApiOperation, cycle: Cycle,
                                      combos: seq<seq<Json>>, n: nat)
    requires n <= |combos| && Fit(op, combos) && SoundOperation(lib, api, op)
    ensures RunCombos(lib, api, op, cycle, combos, n).Ok?
    decreases n
  {
    if n > 0 {
      SoundCalls(lib, api, op, cycle, combos, n - 1);
      SoundCall(lib, api, op, RunCombos(lib, api, op, cycle, combos, n - 1).value, combos[n - 1]);
    }
  }

  lemma SoundVisit(lib: Library, api: Backend, completed: set<string>, op: ApiOperation, cycle: Cycle)
    requires SoundOperation(lib, api, op)
    ensures Visit(lib, api, completed, op, cycle).Ok?
  {
    SoundLists(lib, op.params, cycle.working, |op.params|);
    if Combos(lib, op, cycle.working).value.Some? {
      var combos := Combos(lib, op, cycle.working).value.value;
      CombosFit(lib, op, cycle.working);
      SoundCalls(lib, api, op, Started(op, cycle), combos, |combos|);
    }
  }

  lemma {:induction false} SoundPass(lib: Library, api: Backend, completed: set<string>, ops: seq<ApiOperation>,
                                     cycle: Cycle, n: nat)
    requires n <= |ops| && forall i :: 0 <= i < |ops| ==> SoundOperation(lib, api, ops[i])
    ensures Pass(lib, api, completed, ops, cycle, n).Ok?
    decreases n
  {
    if n > 0 {
      SoundPass(lib, api, completed, ops, cycle, n - 1);
      SoundVisit(lib, api, completed, ops[n - 1], Pass(lib, api, completed, ops, cycle, n - 1).value.cycle);
    }
  }

  /** A cycle fails only for a parameter in error or a call that breaks. (No run of a cycle that does
      not fail holds a broken call.) */
  lemma {:induction false} CycleSucceeds(lib: Library, api: Backend, completed: set<string>, ops: seq<ApiOperation>,
                                         cycle: Cycle)
    requires forall i :: 0 <= i < |ops| ==> SoundOperation(lib, api, ops[i])
    ensures Passes(lib, api, completed, ops, cycle).Ok?
    decreases |Paths(ops) - cycle.fetched|
  {
    SoundPass(lib, api, completed, ops, cycle, |ops|);
    PassFetches(lib, api, completed, ops, cycle, |ops|);
    var turn := Pass(lib, api, completed, ops, cycle, |ops|).value;
    if turn.progress {
      LessToFetch(Paths(ops), cycle.fetched, turn.cycle.fetched);
      CycleSucceeds(lib, api, completed, ops, turn.cycle);
    }
  }

  // ---- the cycle as a whole ----

  lemma CycleKeeps(lib: Library, api: Backend, completed: set<string>, ops: seq<ApiOperation>, values: Published)
    requires Passes(lib, api, completed, ops, NewCycle(values)).Ok?
    ensures var cycle := Passes(lib, api, completed, ops, NewCycle(values)).value;
            OncePerCycle(completed, ops, cycle) && RunsAreDue(lib, values, cycle) && PlanIsOfRuns(cycle) &&
            IsStaged(lib, api, values, cycle)
  {
    CycleStages(lib, api, completed, ops, values);
    var once := (c: Cycle) => OncePerCycle(completed, ops, c);
    forall c, i | 0 <= i < |ops| && once(c) && Visit(lib, api, completed, ops[i], c).Ok?
      ensures once(Visit(lib, api, completed, ops[i], c).value.cycle)
    {
      VisitOnce(lib, api, completed, ops, ops[i], c);
    }
    PassesKeep(once, lib, api, completed, ops, NewCycle(values));
    var due := (c: Cycle) => RunsAreDue(lib, values, c);
    forall c, i | 0 <= i < |ops| && due(c) && Visit(lib, api, completed, ops[i], c).Ok?
      ensures due(Visit(lib, api, completed, ops[i], c).value.cycle)
    {
      VisitIsDue(lib, api, completed, values, ops[i], c);
    }
    PassesKeep(due, lib, api, completed, ops, NewCycle(values));
    forall c, i | 0 <= i < |ops| && PlanIsOfRuns(c) && Visit(lib, api, completed, ops[i], c).Ok?
      ensures PlanIsOfRuns(Visit(lib, api, completed, ops[i], c).value.cycle)
    {
      VisitPlans(lib, api, completed, ops[i], c);
    }
    PassesKeep(PlanIsOfRuns, lib, api, completed, ops, NewCycle(values));
  }

  lemma CycleStages(lib: Library, api: Backend, completed: set<string>, ops: seq<ApiOperation>, values: Published)
    requires Passes(lib, api, completed, ops, NewCycle(values)).Ok?
    ensures IsStaged(lib, api, values, Passes(lib, api, completed, ops, NewCycle(values)).value)
  {
    var staged := (c: Cycle) => IsStaged(lib, api, values, c);
    forall c, i | 0 <= i < |ops| && staged(c) && Visit(lib, api, completed, ops[i], c).Ok?
      ensures staged(Visit(lib, api, completed, ops[i], c).value.cycle)
    {
      VisitStages(lib, api, completed, values, ops[i], c);
    }
    PassesKeep(staged, lib, api, completed, ops, NewCycle(values));
  }

  /** At the end of a cycle an operation was run, or is a complete one-shot operation, or has a
      parameter with no acceptable value among all that is published. (Operations that share a path
      would share its fate; the paths of a specification are distinct.) */
  lemma CycleEndsAtFixpoint(lib: Library, api: Backend, completed: set<string>, ops: seq<ApiOperation>,
                            values: Published, i: nat)
    requires Passes(lib, api, completed, ops, NewCycle(values)).Ok? && i < |ops|
    ensures var cycle := Passes(lib, api, completed, ops, NewCycle(values)).value;
            || Ran(cycle.runs, ops[i].path)
            || (IsDone(completed, ops, ops[i].path) && (DistinctPaths(ops) ==> ops[i].mode == OneShot))
            || exists k :: 0 <= k < |ops[i].params| && Starved(lib, ops[i].params[k], cycle.working)
  {
    CycleKeeps(lib, api, completed, ops, values);
    EndsIdle(lib, api, completed, ops, NewCycle(values));
    var cycle := Passes(lib, api, completed, ops, NewCycle(values)).value;
    if ops[i].path !in cycle.fetched {
      assert Waits(lib, ops[i], cycle.working);
      NotReadyMeansStarved(lib, ops[i].params, cycle.working, |ops[i].params|);
    }
  }

  /** A fixed value, or one published by the end of the cycle. */
  predicate Comes(source: ParamSource, end: Published, v: Json) {
    match source
    case FromOperation(id, _) => id in end && v in end[id]
    case Fixed(values) => v in values
    case Unsupported => false
  }

  /** One accepted value for each parameter. */
  predicate PicksAccepted(lib: Library, run: Run, combo: seq<Json>) {
    && |combo| == |run.op.params|
    && forall k ::
         0 <= k < |combo| ==>
           combo[k] in Offered(lib, run.op.params[k], run.seen) && Accepted(lib, run.op.params[k], combo[k])
  }

  /** A run was made once for every way to pick one acceptable value for each parameter, and each
      value is a fixed one or was published by the end of the cycle. */
  lemma RunsUseAcceptableValues(lib: Library, start: Published, end: Published, run: Run, combo: seq<Json>)
    requires RunIsDue(lib, start, end, run)
    ensures combo in run.combos <==> PicksAccepted(lib, run, combo)
    ensures combo in run.combos ==>
              |combo| == |run.op.params| &&
              forall k :: 0 <= k < |combo| ==> Comes(run.op.params[k].source, end, combo[k])
  {
    if run.op.params == [] {
      assert combo in run.combos <==> combo == [];
    } else {
      var lists := EffectiveLists(lib, run.op.params, run.seen, |run.op.params|).value.value;
      ListsAre(lib, run.op.params, run.seen, |run.op.params|);
      ProductHolds(lists, combo);
      forall k | 0 <= k < |lists|
        ensures forall v ::
                  v in lists[k] <==> v in Offered(lib, run.op.params[k], run.seen) && Accepted(lib, run.op.params[k], v)
        ensures forall v :: v in lists[k] ==> Comes(run.op.params[k].source, end, v)
      {
        EffectiveValuesAre(lib, run.op.params[k], run.seen);
        OfferedComes(lib, run.op.params[k], run.seen, end);
      }
    }
  }

  lemma OfferedComes(lib: Library, spec: ParamSpec, seen: Published, end: Published)
    requires Extends(seen, end)
    ensures forall v :: v in Offered(lib, spec, seen) ==> Comes(spec.source, end, v)
  {
    match spec.source
    case FromOperation(id, _) =>
      if id in seen {
        UniqueDrawsFrom(lib.format, seen[id]);
        forall v | v in seen[id] ensures v in end[id] {
          var i :| 0 <= i < |seen[id]| && seen[id][i] == v;
          assert end[id][i] == v;
        }
      }
    case Fixed(values) => UniqueDrawsFrom(lib.format, values);
    case Unsupported =>
  }
}
