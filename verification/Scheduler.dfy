/** One planning cycle: operations run as soon as their parameters have values, until none can. */
module Scheduler {
  import opened Common
  import opened Plans
  import opened Values
  import opened Params

  datatype ResourceType = OneShot | Incremental | FullReload

  datatype ApiOperation = ApiOperation(path: string, mode: ResourceType, params: seq<ParamSpec>, pagination: string,
                                       creates: seq<Op>, owned: seq<string>)

  /** What calling an operation with one combination comes to. `Broken` ends the cycle (its
      checkpoint cannot be loaded, parsed or built); a failed or skipped fetch is `Done` without
      operations, though pages before the failure have published their values. */
  datatype Outcome = Broken | Done(published: seq<(string, Json)>, ops: seq<Op>, resume: Option<string>)

  /** The n-th call of a cycle, as the API and the checkpoint store answer it. */
  type Backend = (nat, ApiOperation, map<string, string>) -> Outcome

  datatype Checkpoint = Checkpoint(key: string, resume: string)

  /** One operation run in this cycle: the published values it saw, its combinations and what they
      came to. */
  datatype Run = Run(op: ApiOperation, seen: Published, combos: seq<seq<Json>>, outcomes: seq<Outcome>)

  /** The local variables of a cycle, and the runs so far. */
  datatype Cycle = Cycle(fetched: set<string>, working: Published, upsert: seq<Op>, reload: seq<Op>,
                         pending: seq<Checkpoint>, calls: nat, runs: seq<Run>)

  // ---- publishing ----

  function PublishOne(format: Json -> string, working: Published, id: string, v: Json): Published {
    var values := if id in working then working[id] else [];
    working[id := if HasText(format, values, format(v)) then values else values + [v]]
  }

  function Publish(format: Json -> string, working: Published, values: seq<(string, Json)>): Published {
    if values == [] then working
    else
      var last := values[|values| - 1];
      PublishOne(format, Publish(format, working, values[..|values| - 1]), last.0, last.1)
  }

  // ---- running one operation ----

  function AddOps(cycle: Cycle, mode: ResourceType, ops: seq<Op>): Cycle {
    if mode == FullReload then cycle.(reload := cycle.reload + ops) else cycle.(upsert := cycle.upsert + ops)
  }

  function Settle(lib: Library, op: ApiOperation, cycle: Cycle, params: map<string, string>, outcome: Outcome): Cycle
    requires outcome.Done?
  {
    var c := AddOps(cycle, op.mode, outcome.ops);
    c.(working := Publish(lib.format, cycle.working, outcome.published),
       pending := if op.mode == Incremental && outcome.resume.Some?
                  then cycle.pending +
                       [Checkpoint(CheckpointKey(lib, op.path, op.pagination, params), outcome.resume.value)]
                  else cycle.pending,
       calls := cycle.calls + 1)
  }

  /** A cycle in the middle of an operation, and what its calls came to so far. */
  datatype Calls = Calls(cycle: Cycle, outcomes: seq<Outcome>)

  function CallNext(lib: Library, api: Backend, op: ApiOperation, before: Calls, combo: seq<Json>): Result<Calls>
    requires |combo| == |op.params|
  {
    var params := ParamsOf(lib, op.params, combo, |op.params|);
    var outcome := api(before.cycle.calls, op, params);
    if outcome.Broken? then Failed
       else Ok(Calls(Settle(lib, op, before.cycle, params, outcome), before.outcomes + [outcome]))
  }

  predicate Fit(op: ApiOperation, combos: seq<seq<Json>>) {
    forall c :: c in combos ==> |c| == |op.params|
  }

  /** After the first n combinations. */
  function RunCombos(lib: Library, api: Backend, op: ApiOperation, cycle: Cycle, combos: seq<seq<Json>>,
                     n: nat): Result<Calls>
    requires n <= |combos| && Fit(op, combos)
  {
    if n == 0 then Ok(Calls(cycle, []))
    else
      match RunCombos(lib, api, op, cycle, combos, n - 1)
      case Failed => Failed
      case Ok(before) => CallNext(lib, api, op, before, combos[n - 1])
  }

  lemma {:induction false} CombosFail(lib: Library, api: Backend, op: ApiOperation, cycle: Cycle,
                                      combos: seq<seq<Json>>, n: nat)
    requires n <= |combos| && Fit(op, combos)
    requires RunCombos(lib, api, op, cycle, combos, n).Failed?
    ensures RunCombos(lib, api, op, cycle, combos, |combos|).Failed?
    decreases |combos| - n
  {
    if n < |combos| {
      CombosFail(lib, api, op, cycle, combos, n + 1);
    }
  }

  method CallOnce(lib: Library, api: Backend, op: ApiOperation, before: Calls, combo: seq<Json>)
    returns (r: Result<Calls>)
    requires |combo| == |op.params|
    ensures r == CallNext(lib, api, op, before, combo)
  {
    var params := BuildParamsMap(lib, op.params, combo);
    var outcome := api(before.cycle.calls, op, params);
    if outcome.Broken? {
      return Failed;
    }
    return Ok(Calls(Settle(lib, op, before.cycle, params, outcome), before.outcomes + [outcome]));
  }

  method FetchCombos(lib: Library, api: Backend, op: ApiOperation, cycle: Cycle, combos: seq<seq<Json>>)
    returns (r: Result<Calls>)
    requires Fit(op, combos)
    ensures r == RunCombos(lib, api, op, cycle, combos, |combos|)
  {
    var now := Calls(cycle, []);
    for i := 0 to |combos|
      invariant RunCombos(lib, api, op, cycle, combos, i) == Ok(now)
    {
      var next := CallOnce(lib, api, op, now, combos[i]);
      if next.Failed? {
        CombosFail(lib, api, op, cycle, combos, i + 1);
        return Failed;
      }
      now := next.value;
    }
    return Ok(now);
  }

  /** The combinations an operation can be called with now; none while a parameter has no value. */
  function Combos(lib: Library, op: ApiOperation, working: Published): Result<Option<seq<seq<Json>>>> {
    if op.params == [] then Ok(Some([[]]))
    else
      match EffectiveLists(lib, op.params, working, |op.params|)
      case Failed => Failed
      case Ok(None) => Ok(None)
      case Ok(Some(lists)) => Ok(Some(Product(lists)))
  }

  lemma CombosFit(lib: Library, op: ApiOperation, working: Published)
    requires Combos(lib, op, working).Ok? && Combos(lib, op, working).value.Some?
    ensures Fit(op, Combos(lib, op, working).value.value)
    ensures Combos(lib, op, working).value.value != []
  {
    if op.params != [] {
      var lists := EffectiveLists(lib, op.params, working, |op.params|).value.value;
      ListsAre(lib, op.params, working, |op.params|);
      forall c | c in Product(lists) ensures |c| == |op.params| { ProductHolds(lists, c); }
      var first := seq(|lists|, i requires 0 <= i < |lists| => lists[i][0]);
      ProductHolds(lists, first);
    }
  }

  method BuildCombos(lib: Library, op: ApiOperation, working: Published) returns (r: Result<Option<seq<seq<Json>>>>)
    ensures r == Combos(lib, op, working)
  {
    if op.params == [] {
      return Ok(Some([[]]));
    }
    var lists := BuildEffectiveParamValueLists(lib, op.params, working);
    if lists.Failed? {
      return Failed;
    }
    if lists.value.None? {
      return Ok(None);
    }
    ListsAre(lib, op.params, working, |op.params|);
    var combos := GenerateCombinations(lists.value.value);
    return Ok(Some(combos));
  }

  // ---- one pass over the operations ----

  datatype Turn = Turn(cycle: Cycle, progress: bool)

  /** The creates go in first. The source remembers per mode which operations have added theirs; as
      an operation runs once in a cycle, that memory never holds one back. */
  function Started(op: ApiOperation, cycle: Cycle): Cycle {
    AddOps(cycle, op.mode, op.creates)
  }

  function Visit(lib: Library, api: Backend, completed: set<string>, op: ApiOperation, cycle: Cycle): Result<Turn> {
    if op.path in cycle.fetched then Ok(Turn(cycle, false))
    else if op.mode == OneShot && op.path in completed
              then Ok(Turn(cycle.(fetched := cycle.fetched + {op.path}), false))
    else
      match Combos(lib, op, cycle.working)
      case Failed => Failed
      case Ok(None) => Ok(Turn(cycle, false))
      case Ok(Some(combos)) =>
        CombosFit(lib, op, cycle.working);
        match RunCombos(lib, api, op, Started(op, cycle), combos, |combos|)
        case Failed => Failed
        case Ok(Calls(after, outcomes)) =>
          Ok(Turn(after.(fetched := cycle.fetched + {op.path}, runs :=
              cycle.runs + [Run(op, cycle.working, combos, outcomes)]), true))
  }

  method VisitOperation(lib: Library, api: Backend, completed: set<string>, op: ApiOperation, cycle: Cycle)
    returns (r: Result<Turn>)
    ensures r == Visit(lib, api, completed, op, cycle)
  {
    if op.path in cycle.fetched {
      return Ok(Turn(cycle, false));
    }
    if op.mode == OneShot && op.path in completed {
      return Ok(Turn(cycle.(fetched := cycle.fetched + {op.path}), false));
    }
    var combos := BuildCombos(lib, op, cycle.working);
    if combos.Failed? {
      return Failed;
    }
    if combos.value.None? {
      return Ok(Turn(cycle, false));
    }
    CombosFit(lib, op, cycle.working);
    var fetched := FetchCombos(lib, api, op, Started(op, cycle), combos.value.value);
    if fetched.Failed? {
      return Failed;
    }
    var run := Run(op, cycle.working, combos.value.value, fetched.value.outcomes);
    return Ok(Turn(fetched.value.cycle.(fetched := cycle.fetched + {op.path}, runs := cycle.runs + [run]), true));
  }

  function Pass(lib: Library, api: Backend, completed: set<string>, ops: seq<ApiOperation>, cycle: Cycle,
                n: nat): Result<Turn>
    requires n <= |ops|
  {
    if n == 0 then Ok(Turn(cycle, false))
    else
      match Pass(lib, api, completed, ops, cycle, n - 1)
      case Failed => Failed
      case Ok(before) =>
        match Visit(lib, api, completed, ops[n - 1], before.cycle)
        case Failed => Failed
        case Ok(turn) => Ok(Turn(turn.cycle, before.progress || turn.progress))
  }

  lemma {:induction false} PassFails(lib: Library, api: Backend, completed: set<string>, ops: seq<ApiOperation>,
                                     cycle: Cycle, n: nat)
    requires n <= |ops| && Pass(lib, api, completed, ops, cycle, n).Failed?
    ensures Pass(lib, api, completed, ops, cycle, |ops|).Failed?
    decreases |ops| - n
  {
    if n < |ops| {
      PassFails(lib, api, completed, ops, cycle, n + 1);
    }
  }

  method MakePass(lib: Library, api: Backend, completed: set<string>, ops: seq<ApiOperation>, cycle: Cycle)
    returns (r: Result<Turn>)
    ensures r == Pass(lib, api, completed, ops, cycle, |ops|)
  {
    var turn := Turn(cycle, false);
    for i := 0 to |ops|
      invariant Pass(lib, api, completed, ops, cycle, i) == Ok(turn)
    {
      var visited := VisitOperation(lib, api, completed, ops[i], turn.cycle);
      if visited.Failed? {
        PassFails(lib, api, completed, ops, cycle, i + 1);
        return Failed;
      }
      turn := Turn(visited.value.cycle, turn.progress || visited.value.progress);
    }
    return Ok(turn);
  }

  // ---- a pass that makes progress fetches something new ----

  function Paths(ops: seq<ApiOperation>): set<string> {
    set i | 0 <= i < |ops| :: ops[i].path
  }

  lemma {:induction false} CombosKeepFetched(lib: Library, api: Backend, op: ApiOperation, cycle: Cycle,
                                             combos: seq<seq<Json>>, n: nat)
    requires n <= |combos| && Fit(op, combos) && RunCombos(lib, api, op, cycle, combos, n).Ok?
    ensures var after := RunCombos(lib, api, op, cycle, combos, n).value;
            after.cycle.fetched == cycle.fetched && after.cycle.runs == cycle.runs && |after.outcomes| == n
    decreases n
  {
    if n > 0 {
      CombosKeepFetched(lib, api, op, cycle, combos, n - 1);
    }
  }

  lemma {:induction false} PassFetches(lib: Library, api: Backend, completed: set<string>, ops: seq<ApiOperation>,
                                       cycle: Cycle, n: nat)
    requires n <= |ops| && Pass(lib, api, completed, ops, cycle, n).Ok?
    ensures var turn := Pass(lib, api, completed, ops, cycle, n).value;
            && cycle.fetched <= turn.cycle.fetched <= cycle.fetched + Paths(ops)
            && (turn.progress ==> cycle.fetched < turn.cycle.fetched)
    decreases n
  {
    if n > 0 {
      PassFetches(lib, api, completed, ops, cycle, n - 1);
    }
  }

  lemma LessToFetch(all: set<string>, before: set<string>, after: set<string>)
    requires before < after <= before + all
    ensures |all - after| < |all - before|
  {
    var x :| x in after && x !in before;
    assert all - after <= (all - before) - {x};
    SubsetSize(all - after, (all - before) - {x});
  }

  lemma SubsetSize<T>(a: set<T>, b: set<T>)
    requires a <= b
    ensures |a| <= |b|
  {
    assert b == a + (b - a);
  }

  /** Passes until one makes no progress. */
  function Passes(lib: Library, api: Backend, completed: set<string>, ops: seq<ApiOperation>,
                  cycle: Cycle): Result<Cycle>
    decreases |Paths(ops) - cycle.fetched|
  {
    match Pass(lib, api, completed, ops, cycle, |ops|)
    case Failed => Failed
    case Ok(turn) =>
      PassFetches(lib, api, completed, ops, cycle, |ops|);
      if !turn.progress then Ok(turn.cycle)
      else
        LessToFetch(Paths(ops), cycle.fetched, turn.cycle.fetched);
        Passes(lib, api, completed, ops, turn.cycle)
  }

  function NewCycle(values: Published): Cycle {
    Cycle({}, values, [], [], [], 0, [])
  }

  /** The scheduler loop; it ends because every pass but the last leaves fewer operations to fetch. */
  method RunOperations(lib: Library, api: Backend, completed: set<string>, ops: seq<ApiOperation>, values: Published)
    returns (r: Result<Cycle>)
    ensures r == Passes(lib, api, completed, ops, NewCycle(values))
  {
    var cycle := NewCycle(values);
    var progress := true;
    while progress
      invariant progress ==>
                  Passes(lib, api, completed, ops, cycle) == Passes(lib, api, completed, ops, NewCycle(values))
      invariant !progress ==> Passes(lib, api, completed, ops, NewCycle(values)) == Ok(cycle)
      decreases progress, |Paths(ops) - cycle.fetched|
    {
      var turn := MakePass(lib, api, completed, ops, cycle);
      if turn.Failed? {
        return Failed;
      }
      PassFetches(lib, api, completed, ops, cycle, |ops|);
      if turn.value.progress {
        LessToFetch(Paths(ops), cycle.fetched, turn.value.cycle.fetched);
      }
      cycle, progress := turn.value.cycle, turn.value.progress;
    }
    return Ok(cycle);
  }
}
