/** The planner's state between cycles: what operations published, and which one-shot operations
    are done. */
module Service {
  import opened Common
  import opened Plans
  import opened Params
  import opened Scheduler
  import opened SchedulerRuns
  import opened FullSync
  import opened Nullability

  datatype CyclePlan = CyclePlan(upsert: seq<Op>, fullSync: seq<FullSyncTable>, pending: seq<Checkpoint>,
                                 nextValues: Published, completed: seq<string>)

  // ---- preparing the operations ----

  /** No table is owned by operations of different modes. */
  predicate OneModePerTable(ops: seq<ApiOperation>) {
    forall i, j, t ::
      0 <= i < |ops| && 0 <= j < |ops| && t in ops[i].owned && t in ops[j].owned ==> ops[i].mode == ops[j].mode
  }

  /** Claims the tables of one operation; none when one of them is claimed with another mode. */
  method ClaimTables(modes: map<string, ResourceType>, owned: seq<string>, mode: ResourceType)
    returns (r: Option<map<string, ResourceType>>)
    ensures r.Some? <==> forall t :: t in owned && t in modes ==> modes[t] == mode
    ensures r.Some? ==> r.value == modes + map t | t in owned :: mode
  {
    var now := modes;
    for k := 0 to |owned|
      invariant now == modes + map t | t in owned[..k] :: mode
      invariant forall t :: t in owned[..k] && t in modes ==> modes[t] == mode
    {
      var t := owned[k];
      if t in now && now[t] != mode {
        assert t in owned && t in modes && modes[t] != mode;
        return None;
      }
      now := now[t := mode];
      assert owned[..k + 1] == owned[..k] + [t];
    }
    assert owned[..|owned|] == owned;
    return Some(now);
  }

  /** The claims of these operations, none in conflict. */
  predicate Claimed(ops: seq<ApiOperation>, modes: map<string, ResourceType>) {
    && (forall i, t :: 0 <= i < |ops| && t in ops[i].owned ==> t in modes && modes[t] == ops[i].mode)
    && (forall t :: t in modes ==> exists i :: 0 <= i < |ops| && t in ops[i].owned)
  }

  lemma ClaimedMore(ops: seq<ApiOperation>, modes: map<string, ResourceType>, op: ApiOperation)
    requires Claimed(ops, modes) && forall t :: t in op.owned && t in modes ==> modes[t] == op.mode
    ensures Claimed(ops + [op], modes + map t | t in op.owned :: op.mode)
  {
    var more, now := ops + [op], modes + map t | t in op.owned :: op.mode;
    forall t | t in now ensures exists i :: 0 <= i < |more| && t in more[i].owned {
      if t in op.owned {
        assert t in more[|ops|].owned;
      } else {
        var i :| 0 <= i < |ops| && t in ops[i].owned;
        assert t in more[i].owned;
      }
    }
  }

  /** The part of `prepareSpec` that keeps modes apart. */
  method CheckTableModes(ops: seq<ApiOperation>) returns (ok: bool)
    ensures ok <==> OneModePerTable(ops)
  {
    var modes: map<string, ResourceType> := map[];
    for n := 0 to |ops|
      invariant Claimed(ops[..n], modes)
    {
      var claimed := ClaimTables(modes, ops[n].owned, ops[n].mode);
      if claimed.None? {
        Clash(ops, n, modes);
        return false;
      }
      ClaimedMore(ops[..n], modes, ops[n]);
      assert ops[..n + 1] == ops[..n] + [ops[n]];
      modes := claimed.value;
    }
    assert ops[..|ops|] == ops;
    NoClash(ops, modes);
    return true;
  }

  lemma NoClash(ops: seq<ApiOperation>, modes: map<string, ResourceType>)
    requires Claimed(ops, modes)
    ensures OneModePerTable(ops)
  {
    forall i, j, t | 0 <= i < |ops| && 0 <= j < |ops| && t in ops[i].owned && t in ops[j].owned
      ensures ops[i].mode == ops[j].mode
    {
      assert modes[t] == ops[i].mode && modes[t] == ops[j].mode;
    }
  }

  lemma Clash(ops: seq<ApiOperation>, n: nat, modes: map<string, ResourceType>)
    requires n < |ops| && Claimed(ops[..n], modes)
    requires exists t :: t in ops[n].owned && t in modes && modes[t] != ops[n].mode
    ensures !OneModePerTable(ops)
  {
    var t :| t in ops[n].owned && t in modes && modes[t] != ops[n].mode;
    var i :| 0 <= i < n && t in ops[..n][i].owned;
    assert t in ops[i].owned;
  }

  // ---- completing one-shot operations ----

  function OneShots(ops: seq<ApiOperation>): seq<string> {
    if ops == [] then []
    else
      var front, last := OneShots(ops[..|ops| - 1]), ops[|ops| - 1];
      if last.mode == OneShot then front + [last.path] else front
  }

  lemma {:induction false} OneShotsAre(ops: seq<ApiOperation>, path: string)
    ensures path in OneShots(ops) <==> exists op :: op in ops && op.mode == OneShot && op.path == path
    decreases |ops|
  {
    if ops != [] {
      OneShotsAre(ops[..|ops| - 1], path);
      assert ops == ops[..|ops| - 1] + [ops[|ops| - 1]];
    }
  }

  function OneShotPlaces(ops: seq<ApiOperation>): set<nat> {
    set i: nat | i < |ops| && ops[i].mode == OneShot
  }

  /** One path for each one-shot operation. */
  lemma {:induction false} OneShotsCount(ops: seq<ApiOperation>)
    ensures |OneShots(ops)| == |OneShotPlaces(ops)|
    decreases |ops|
  {
    if ops != [] {
      var front, n := ops[..|ops| - 1], |ops| - 1;
      OneShotsCount(front);
      assert OneShotPlaces(ops) == OneShotPlaces(front) + (if ops[n].mode == OneShot then {n} else {});
    }
  }

  function NotIn(paths: seq<string>, completed: set<string>): seq<string> {
    if paths == [] then []
    else
      var front, last := NotIn(paths[..|paths| - 1], completed), paths[|paths| - 1];
      if last in completed then front else front + [last]
  }

  /** The one-shot operations a commit will mark, if fewer are complete than there are. */
  function NewlyCompleted(ops: seq<ApiOperation>, completed: set<string>): seq<string> {
    if |completed| < |OneShots(ops)| then NotIn(OneShots(ops), completed) else []
  }

  method CountOneShotOps(ops: seq<ApiOperation>) returns (n: nat)
    ensures n == |OneShots(ops)|
  {
    n := 0;
    for i := 0 to |ops|
      invariant n == |OneShots(ops[..i])|
    {
      assert ops[..i + 1][..i] == ops[..i];
      if ops[i].mode == OneShot {
        n := n + 1;
      }
    }
    assert ops[..|ops|] == ops;
  }

  method CollectNewlyCompleted(ops: seq<ApiOperation>, completed: set<string>) returns (paths: seq<string>)
    ensures paths == NewlyCompleted(ops, completed)
  {
    var count := CountOneShotOps(ops);
    paths := [];
    if |completed| < count {
      for i := 0 to |ops|
        invariant paths == NotIn(OneShots(ops[..i]), completed)
      {
        assert ops[..i + 1][..i] == ops[..i];
        if ops[i].mode == OneShot {
          assert (OneShots(ops[..i]) + [ops[i].path])[..|OneShots(ops[..i])|] == OneShots(ops[..i]);
        }
        if ops[i].mode == OneShot && ops[i].path !in completed {
          paths := paths + [ops[i].path];
        }
      }
      assert ops[..|ops|] == ops;
    }
  }

  // ---- the plan of a cycle ----

  function CyclePlanOf(lib: Library, api: Backend, ops: seq<ApiOperation>, values: Published,
                       completed: set<string>): Result<CyclePlan> {
    match Passes(lib, api, completed, ops, NewCycle(values))
    case Failed => Failed
    case Ok(cycle) =>
      match FullSyncTables(lib.format, RelaxedPlan(cycle.reload))
      case Failed => Failed
      case Ok(tables) =>
        Ok(CyclePlan(RelaxedPlan(cycle.upsert), tables, cycle.pending, cycle.working, NewlyCompleted(ops, completed)))
  }

  /** The creates of an operation after a plan that holds them was relaxed: they share their columns
      with the plan. */
  function RelaxedCreates(plan: seq<Op>, creates: seq<Op>): seq<Op> {
    seq(|creates|, i requires 0 <= i < |creates| =>
      if creates[i].CreateTable?
      then creates[i].(columns := Relaxed(creates[i].columns, MarksFor(plan, creates[i].table))) else creates[i])
  }

  function HalfOf(cycle: Cycle, mode: ResourceType): seq<Op> {
    if mode == FullReload then cycle.reload else cycle.upsert
  }

  function RelaxedOperation(cycle: Cycle, op: ApiOperation): ApiOperation {
    if Ran(cycle.runs, op.path) then op.(creates := RelaxedCreates(HalfOf(cycle, op.mode), op.creates)) else op
  }

  function RelaxedOperations(cycle: Cycle, ops: seq<ApiOperation>): seq<ApiOperation> {
    seq(|ops|, i requires 0 <= i < |ops| => RelaxedOperation(cycle, ops[i]))
  }

  /** The compiled operations as a cycle leaves them, committed or not: those it ran keep the flags
      that its plan relaxed. */
  function OpsAfter(lib: Library, api: Backend, ops: seq<ApiOperation>, values: Published,
                    completed: set<string>): seq<ApiOperation> {
    match Passes(lib, api, completed, ops, NewCycle(values))
    case Failed => ops
    case Ok(cycle) => RelaxedOperations(cycle, ops)
  }

  class Planner {
    var operations: seq<ApiOperation>
    var responseValues: Published
    var completedOneShotOps: set<string>

    constructor (ops: seq<ApiOperation>)
      ensures operations == ops && responseValues == map[] && completedOneShotOps == {}
    {
      operations, responseValues, completedOneShotOps := ops, map[], {};
    }

    /** Changes nothing but the flags of the compiled creates: a cycle that is not committed is
        planned again from the same values. */
    method GenerateCyclePlan(lib: Library, api: Backend) returns (r: Result<CyclePlan>)
      modifies this`operations
      ensures r == CyclePlanOf(lib, api, old(operations), responseValues, completedOneShotOps)
      ensures operations == OpsAfter(lib, api, old(operations), responseValues, completedOneShotOps)
    {
      var cycle := RunOperations(lib, api, completedOneShotOps, operations, responseValues);
      if cycle.Failed? {
        return Failed;
      }
      var completed := CollectNewlyCompleted(operations, completedOneShotOps);
      operations := RelaxedOperations(cycle.value, operations);
      var tables := BuildFullSyncPlan(lib.format, RelaxedPlan(cycle.value.reload));
      if tables.Failed? {
        return Failed;
      }
      return Ok(CyclePlan(RelaxedPlan(cycle.value.upsert), tables.value, cycle.value.pending, cycle.value.working,
                          completed));
    }

    method CommitCycle(plan: CyclePlan)
      modifies this`responseValues, this`completedOneShotOps
      ensures responseValues == plan.nextValues
      ensures completedOneShotOps == old(completedOneShotOps) + Members(plan.completed)
    {
      responseValues := plan.nextValues;
      for i := 0 to |plan.completed|
        invariant responseValues == plan.nextValues
        invariant completedOneShotOps == old(completedOneShotOps) + Members(plan.completed[..i])
      {
        assert plan.completed[..i + 1] == plan.completed[..i] + [plan.completed[i]];
        completedOneShotOps := completedOneShotOps + {plan.completed[i]};
      }
      assert plan.completed[..|plan.completed|] == plan.completed;
    }
  }

  function Members(paths: seq<string>): set<string> {
    set p | p in paths
  }

  lemma MembersMore(paths: seq<string>, path: string)
    ensures Members(paths + [path]) == Members(paths) + {path}
  {
  }

  // ---- when a commit completes the one-shot operations ----

  lemma {:induction false} NotInAre(paths: seq<string>, completed: set<string>)
    ensures Members(NotIn(paths, completed)) == Members(paths) - completed
    decreases |paths|
  {
    if paths != [] {
      var front, last := paths[..|paths| - 1], paths[|paths| - 1];
      NotInAre(front, completed);
      MembersMore(front, last);
      MembersMore(NotIn(front, completed), last);
      assert paths == front + [last];
    }
  }

  /** A commit leaves every one-shot operation complete, run or not, exactly when fewer operations
      were complete than there are one-shot operations, or all of these were complete already. */
  lemma CommitCompletesOneShots(ops: seq<ApiOperation>, completed: set<string>)
    ensures Members(OneShots(ops)) <= completed + Members(NewlyCompleted(ops, completed)) <==>
            |completed| < |OneShots(ops)| || Members(OneShots(ops)) <= completed
  {
    NotInAre(OneShots(ops), completed);
  }

  // ---- the flags that stay ----

  /** Operations that differ in flags only, loosened from NOT NULL to nullable. */
  predicate SameButFlags(before: seq<ApiOperation>, after: seq<ApiOperation>) {
    |before| == |after| && forall i :: 0 <= i < |before| ==> OnlyLoosened(before[i], after[i])
  }

  predicate OnlyLoosened(before: ApiOperation, after: ApiOperation) {
    && after == before.(creates := after.creates) && |after.creates| == |before.creates|
    && forall j :: 0 <= j < |before.creates| ==> CreateLoosened(before.creates[j], after.creates[j])
  }

  predicate CreateLoosened(before: Op, after: Op) {
    if before.CreateTable? && after.CreateTable?
    then before.table == after.table && Loosened(before.columns, after.columns) else before == after
  }

  lemma CreateLoosenedTwice(a: Op, b: Op, c: Op)
    requires CreateLoosened(a, b) && CreateLoosened(b, c)
    ensures CreateLoosened(a, c)
  {
  }

  lemma SameButFlagsTwice(a: seq<ApiOperation>, b: seq<ApiOperation>, c: seq<ApiOperation>)
    requires SameButFlags(a, b) && SameButFlags(b, c)
    ensures SameButFlags(a, c)
  {
    forall i | 0 <= i < |a| ensures OnlyLoosened(a[i], c[i]) {
      assert OnlyLoosened(a[i], b[i]) && OnlyLoosened(b[i], c[i]);
      forall j | 0 <= j < |a[i].creates| ensures CreateLoosened(a[i].creates[j], c[i].creates[j]) {
        CreateLoosenedTwice(a[i].creates[j], b[i].creates[j], c[i].creates[j]);
      }
    }
  }

  lemma CycleLoosens(lib: Library, api: Backend, ops: seq<ApiOperation>, values: Published, completed: set<string>)
    ensures SameButFlags(ops, OpsAfter(lib, api, ops, values, completed))
  {
  }

  lemma {:induction false} SameOneShots(before: seq<ApiOperation>, after: seq<ApiOperation>)
    requires SameButFlags(before, after)
    ensures OneShots(after) == OneShots(before)
    decreases |before|
  {
    if before != [] {
      var front, front' := before[..|before| - 1], after[..|after| - 1];
      assert OnlyLoosened(before[|before| - 1], after[|after| - 1]);
      assert forall i :: 0 <= i < |front| ==> front[i] == before[i] && front'[i] == after[i];
      SameOneShots(front, front');
    }
  }

  lemma {:induction false} PlannedCreates(runs: seq<Run>, reload: bool, n: nat, create: Op)
    requires n < |runs| && create in runs[n].op.creates && reload == (runs[n].op.mode == FullReload)
    ensures create in PlannedOps(runs, reload)
    decreases |runs|
  {
    if n < |runs| - 1 {
      assert runs[..|runs| - 1][n] == runs[n];
      PlannedCreates(runs[..|runs| - 1], reload, n, create);
    }
  }

  /** The relaxed creates of an operation that ran are those its plan holds: later cycles create with
      the flags that this one has used. */
  lemma PlanSharesCreates(lib: Library, api: Backend, ops: seq<ApiOperation>, values: Published, completed: set<string>,
                          n: nat, j: nat)
    requires Passes(lib, api, completed, ops, NewCycle(values)).Ok?
    requires n < |Passes(lib, api, completed, ops, NewCycle(values)).value.runs|
    requires j < |Passes(lib, api, completed, ops, NewCycle(values)).value.runs[n].op.creates|
    ensures var cycle := Passes(lib, api, completed, ops, NewCycle(values)).value;
            var op := cycle.runs[n].op;
            RelaxedOperation(cycle, op).creates[j] in RelaxedPlan(HalfOf(cycle, op.mode))
  {
    CycleKeeps(lib, api, completed, ops, values);
    var cycle := Passes(lib, api, completed, ops, NewCycle(values)).value;
    var op := cycle.runs[n].op;
    var half := HalfOf(cycle, op.mode);
    PlannedCreates(cycle.runs, op.mode == FullReload, n, op.creates[j]);
    assert op.creates[j] in half;
    var i :| 0 <= i < |half| && half[i] == op.creates[j];
    assert RelaxedPlan(half)[i] == RelaxedCreates(half, op.creates)[j];
  }

  /** An operation that did not run in a cycle keeps its creates as they were, whatever the cycle relaxed
      in tables it shares; and a cycle that fails changes none. */
  lemma IdleOperationsStay(lib: Library, api: Backend, ops: seq<ApiOperation>, values: Published,
                           completed: set<string>, i: nat)
    requires i < |ops|
    requires var r := Passes(lib, api, completed, ops, NewCycle(values));
             r.Ok? ==> forall n :: 0 <= n < |r.value.runs| ==> r.value.runs[n].op.path != ops[i].path
    ensures |OpsAfter(lib, api, ops, values, completed)| == |ops|
    ensures OpsAfter(lib, api, ops, values, completed)[i] == ops[i]
  {
  }

  // ---- runs of cycles over one specification ----

  /** A cycle and whether it was applied and saved, so that its plan was committed. */
  datatype Attempt = Attempt(api: Backend, applied: bool)

  datatype Kept = Kept(ops: seq<ApiOperation>, values: Published, completed: set<string>)

  function AfterAttempt(lib: Library, state: Kept, a: Attempt): Kept {
    var ops := OpsAfter(lib, a.api, state.ops, state.values, state.completed);
    match CyclePlanOf(lib, a.api, state.ops, state.values, state.completed)
    case Failed => state.(ops := ops)
    case Ok(plan) => if a.applied then Kept(ops, plan.nextValues, state.completed + Members(plan.completed))
                        else state.(ops := ops)
  }

  function AfterFrom(lib: Library, start: Kept, attempts: seq<Attempt>): Kept {
    if attempts == [] then start
    else AfterAttempt(lib, AfterFrom(lib, start, attempts[..|attempts| - 1]), attempts[|attempts| - 1])
  }

  /** What a new planner keeps after these attempts. */
  function AfterAttempts(lib: Library, ops: seq<ApiOperation>, attempts: seq<Attempt>): Kept {
    AfterFrom(lib, Kept(ops, map[], {}), attempts)
  }

  predicate Commits(lib: Library, ops: seq<ApiOperation>, attempts: seq<Attempt>, n: nat)
    requires n < |attempts|
  {
    var state := AfterAttempts(lib, ops, attempts[..n]);
    attempts[n].applied && CyclePlanOf(lib, attempts[n].api, state.ops, state.values, state.completed).Ok?
  }

  predicate Committed(lib: Library, ops: seq<ApiOperation>, attempts: seq<Attempt>, n: nat)
    requires n <= |attempts|
  {
    exists k :: 0 <= k < n && Commits(lib, ops, attempts, k)
  }

  /** Over any attempts, committed or not, the compiled operations stay the same but for flags, and
      these only ever loosen. */
  lemma {:induction false} OperationsLoosen(lib: Library, start: Kept, attempts: seq<Attempt>)
    ensures SameButFlags(start.ops, AfterFrom(lib, start, attempts).ops)
    ensures OneShots(AfterFrom(lib, start, attempts).ops) == OneShots(start.ops)
    decreases |attempts|
  {
    if attempts != [] {
      var before := AfterFrom(lib, start, attempts[..|attempts| - 1]);
      OperationsLoosen(lib, start, attempts[..|attempts| - 1]);
      CycleLoosens(lib, attempts[|attempts| - 1].api, before.ops, before.values, before.completed);
      SameButFlagsTwice(start.ops, before.ops, AfterFrom(lib, start, attempts).ops);
    }
    SameOneShots(start.ops, AfterFrom(lib, start, attempts).ops);
  }

  lemma StepTo(lib: Library, ops: seq<ApiOperation>, attempts: seq<Attempt>, n: nat)
    requires n < |attempts|
    ensures AfterAttempts(lib, ops, attempts[..n + 1]) ==
            AfterAttempt(lib, AfterAttempts(lib, ops, attempts[..n]), attempts[n])
  {
    assert attempts[..n + 1][..n] == attempts[..n];
  }

  lemma FirstCommitCompletes(ops: seq<ApiOperation>, completed: set<string>)
    requires completed == {} || completed == Members(OneShots(ops))
    ensures completed + Members(NewlyCompleted(ops, completed)) == Members(OneShots(ops))
  {
    NotInAre(OneShots(ops), completed);
    if OneShots(ops) != [] {
      assert OneShots(ops)[0] in Members(OneShots(ops));
    }
  }

  lemma AttemptCompletes(lib: Library, state: Kept, a: Attempt)
    requires state.completed == {} || state.completed == Members(OneShots(state.ops))
    ensures var commits := a.applied && CyclePlanOf(lib, a.api, state.ops, state.values, state.completed).Ok?;
            var after := AfterAttempt(lib, state, a);
            if commits then after.completed == Members(OneShots(state.ops)) else after == state.(ops := after.ops)
  {
    FirstCommitCompletes(state.ops, state.completed);
  }

  lemma CommittedMore(lib: Library, ops: seq<ApiOperation>, attempts: seq<Attempt>, n: nat)
    requires n < |attempts|
    ensures Committed(lib, ops, attempts, n + 1) <==> Committed(lib, ops, attempts, n) || Commits(lib, ops, attempts, n)
  {
  }

  /** A planner that has kept nothing but flags, or holds exactly the one-shot operations complete. */
  predicate AllOrNone(ops: seq<ApiOperation>, state: Kept, committed: bool) {
    if committed then state.completed == Members(OneShots(ops)) else state.values == map[] && state.completed == {}
  }

  lemma AttemptKeepsAllOrNone(lib: Library, ops: seq<ApiOperation>, state: Kept, a: Attempt, committed: bool)
    requires AllOrNone(ops, state, committed) && OneShots(state.ops) == OneShots(ops)
    ensures var commits := a.applied && CyclePlanOf(lib, a.api, state.ops, state.values, state.completed).Ok?;
            AllOrNone(ops, AfterAttempt(lib, state, a), committed || commits)
  {
    AttemptCompletes(lib, state, a);
  }

  /** Before the first commit nothing is kept but flags; from then on exactly the one-shot operations
      are complete. */
  lemma {:induction false} CompletedSoFar(lib: Library, ops: seq<ApiOperation>, attempts: seq<Attempt>, n: nat)
    requires n <= |attempts|
    ensures AllOrNone(ops, AfterAttempts(lib, ops, attempts[..n]), Committed(lib, ops, attempts, n))
    decreases n
  {
    if n > 0 {
      CompletedSoFar(lib, ops, attempts, n - 1);
      StepTo(lib, ops, attempts, n - 1);
      CommittedMore(lib, ops, attempts, n - 1);
      OperationsLoosen(lib, Kept(ops, map[], {}), attempts[..n - 1]);
      AttemptKeepsAllOrNone(lib, ops, AfterAttempts(lib, ops, attempts[..n - 1]), attempts[n - 1],
                            Committed(lib, ops, attempts, n - 1));
    }
  }

  /** After the first commit no cycle fetches a one-shot operation again, not even one whose
      parameters never had a value. */
  lemma NoOneShotAgain(lib: Library, ops: seq<ApiOperation>, attempts: seq<Attempt>, n: nat)
    requires n < |attempts| && Committed(lib, ops, attempts, n)
    ensures var state := AfterAttempts(lib, ops, attempts[..n]);
            var cycle := Passes(lib, attempts[n].api, state.completed, state.ops, NewCycle(state.values));
            cycle.Ok? ==> forall r :: r in cycle.value.runs ==> r.op.mode != OneShot
  {
    CompletedSoFar(lib, ops, attempts, n);
    OperationsLoosen(lib, Kept(ops, map[], {}), attempts[..n]);
    var state := AfterAttempts(lib, ops, attempts[..n]);
    if Passes(lib, attempts[n].api, state.completed, state.ops, NewCycle(state.values)).Ok? {
      CycleKeeps(lib, attempts[n].api, state.completed, state.ops, state.values);
      var runs := Passes(lib, attempts[n].api, state.completed, state.ops, NewCycle(state.values)).value.runs;
      forall r | r in runs && r.op.mode == OneShot ensures false {
        var i :| 0 <= i < |runs| && runs[i] == r;
        OneShotsAre(state.ops, r.op.path);
      }
    }
  }

  /** A cycle that is not committed leaves what the next one starts from as it was, but for flags. */
  lemma UncommittedIsRetried(lib: Library, ops: seq<ApiOperation>, attempts: seq<Attempt>, n: nat)
    requires n < |attempts| && !Commits(lib, ops, attempts, n)
    ensures var before, after := AfterAttempts(lib, ops, attempts[..n]), AfterAttempts(lib, ops, attempts[..n + 1]);
            after.values == before.values && after.completed == before.completed && SameButFlags(before.ops, after.ops)
  {
    StepTo(lib, ops, attempts, n);
    var before := AfterAttempts(lib, ops, attempts[..n]);
    CycleLoosens(lib, attempts[n].api, before.ops, before.values, before.completed);
  }

  // ---- one planner, two specifications ----

  /** With as many complete paths as there are one-shot operations, no attempt completes another. */
  lemma {:induction false} NothingNewCompletes(lib: Library, start: Kept, attempts: seq<Attempt>)
    requires |start.completed| >= |OneShots(start.ops)|
    ensures AfterFrom(lib, start, attempts).completed == start.completed
    decreases |attempts|
  {
    if attempts != [] {
      var front := attempts[..|attempts| - 1];
      NothingNewCompletes(lib, start, front);
      OperationsLoosen(lib, start, front);
      assert Members([]) == {};
    }
  }

  /** What a planner keeps when it is given another specification. */
  function SwitchedTo(ops: seq<ApiOperation>, state: Kept): Kept {
    state.(ops := ops)
  }

  /** Paths that are complete from an earlier specification can keep the one-shot operations of the
      next from ever being complete: each is fetched in every cycle, committed or not, unless one of
      its parameters has no value. */
  lemma ForeignPathsBlockCompletion(lib: Library, earlier: seq<ApiOperation>, first: seq<Attempt>,
                                    ops: seq<ApiOperation>, attempts: seq<Attempt>, api: Backend, i: nat)
    requires Committed(lib, earlier, first, |first|) && |Members(OneShots(earlier))| >= |OneShots(ops)|
    requires i < |ops| && ops[i].mode == OneShot && ops[i].path !in OneShots(earlier)
    ensures var state := AfterFrom(lib, SwitchedTo(ops, AfterAttempts(lib, earlier, first)), attempts);
            && |state.ops| == |ops| && state.completed == Members(OneShots(earlier)) && ops[i].path !in state.completed
            && var cycle := Passes(lib, api, state.completed, state.ops, NewCycle(state.values));
               cycle.Ok? ==>
                 || Ran(cycle.value.runs, ops[i].path)
                 || exists k :: 0 <= k < |ops[i].params| && Starved(lib, ops[i].params[k], cycle.value.working)
  {
    var start := SwitchedTo(ops, AfterAttempts(lib, earlier, first));
    CompletedSoFar(lib, earlier, first, |first|);
    assert first[..|first|] == first;
    NothingNewCompletes(lib, start, attempts);
    OperationsLoosen(lib, start, attempts);
    var state := AfterFrom(lib, start, attempts);
    assert OnlyLoosened(ops[i], state.ops[i]);
    if Passes(lib, api, state.completed, state.ops, NewCycle(state.values)).Ok? {
      CycleEndsAtFixpoint(lib, api, state.completed, state.ops, state.values, i);
    }
  }

  function SimpleOneShot(path: string): ApiOperation {
    ApiOperation(path, OneShot, [], "", [], [])
  }

  lemma SimpleIsOneShot(path: string)
    ensures OneShots([SimpleOneShot(path)]) == [path]
  {
    assert [SimpleOneShot(path)][..0] == [];
    assert [] + [path] == [path];
  }

  /** An API that answers every call with nothing to insert. */
  function QuietApi(): Backend {
    (n: nat, op: ApiOperation, params: map<string, string>) => Done([], [], None)
  }

  lemma QuietCycle(lib: Library, path: string) returns (cycle: Cycle)
    ensures Passes(lib, QuietApi(), {}, [SimpleOneShot(path)], NewCycle(map[])) == Ok(cycle) && cycle.reload == []
  {
    var op, ops, start := SimpleOneShot(path), [SimpleOneShot(path)], NewCycle(map[]);
    var combos: seq<seq<Json>> := [[]];
    assert Combos(lib, op, map[]) == Ok(Some(combos));
    assert RunCombos(lib, QuietApi(), op, Started(op, start), combos, 0) == Ok(Calls(Started(op, start), []));
    var after := RunCombos(lib, QuietApi(), op, Started(op, start), combos, 1).value;
    cycle := Visit(lib, QuietApi(), {}, op, start).value.cycle;
    assert Pass(lib, QuietApi(), {}, ops, start, 0) == Ok(Turn(start, false));
    assert Pass(lib, QuietApi(), {}, ops, start, 1) == Ok(Turn(cycle, true));
    assert Pass(lib, QuietApi(), {}, ops, cycle, 0) == Ok(Turn(cycle, false));
    assert Pass(lib, QuietApi(), {}, ops, cycle, 1) == Ok(Turn(cycle, false));
  }

  lemma QuietPlan(lib: Library, path: string)
    ensures CyclePlanOf(lib, QuietApi(), [SimpleOneShot(path)], map[], {}).Ok?
  {
    var cycle := QuietCycle(lib, path);
    assert RelaxedPlan(cycle.reload) == [];
    assert FullSyncTables(lib.format, []) == Ok([]);
  }

  lemma OneAttemptCommits(lib: Library, ops: seq<ApiOperation>, a: Attempt)
    requires a.applied && CyclePlanOf(lib, a.api, ops, map[], {}).Ok?
    ensures Committed(lib, ops, [a], 1)
  {
    var attempts := [a];
    assert attempts[..0] == [];
    assert AfterAttempts(lib, ops, []) == Kept(ops, map[], {});
    assert Commits(lib, ops, attempts, 0);
  }

  lemma QuietCommits(lib: Library, path: string)
    ensures var ops, first := [SimpleOneShot(path)], [Attempt(QuietApi(), true)];
            Committed(lib, ops, first, |first|) && Members(OneShots(ops)) == {path}
  {
    QuietPlan(lib, path);
    OneAttemptCommits(lib, [SimpleOneShot(path)], Attempt(QuietApi(), true));
    SimpleIsOneShot(path);
  }

  /** It happens: one committed cycle of a specification with one one-shot operation blocks the only
      one-shot operation of the next for good. */
  lemma OneForeignPathSuffices(lib: Library, a: string, b: string, attempts: seq<Attempt>, api: Backend)
    requires a != b
    ensures var first := [Attempt(QuietApi(), true)];
            var state :=
                AfterFrom(lib, SwitchedTo([SimpleOneShot(b)], AfterAttempts(lib, [SimpleOneShot(a)], first)), attempts);
            && state.completed == {a}
            && var cycle := Passes(lib, api, state.completed, state.ops, NewCycle(state.values));
               cycle.Ok? ==> Ran(cycle.value.runs, b)
  {
    QuietCommits(lib, a);
    SimpleIsOneShot(a);
    SimpleIsOneShot(b);
    ForeignPathsBlockCompletion(lib, [SimpleOneShot(a)], [Attempt(QuietApi(), true)], [SimpleOneShot(b)], attempts, api,
                                0);
  }
}
