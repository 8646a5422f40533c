/** The runner: its state under the lock, its trigger channel, and the work of one cycle. */
module Runner {
  import opened Common
  import opened RunnerSteps

  // ---- the work of one cycle ----

  datatype Action = GeneratePlan | ExportSQL | ApplyUpsert | ApplyFullSync | SaveCheckpoints | WriteFile | CommitCycle

  /** Whether an action succeeds in this cycle. */
  type Succeeds = Action -> bool

  datatype PlanShape = PlanShape(hasFullSync: bool, hasPending: bool, hasSql: bool)

  function ApplySteps(shape: PlanShape): seq<Action> {
    [ApplyUpsert] + (if shape.hasFullSync then [ApplyFullSync] else []) +
    (if shape.hasPending then [SaveCheckpoints] else [])
  }

  predicate Applies(ok: Succeeds, shape: PlanShape) {
    ok(ApplyUpsert) && (shape.hasFullSync ==> ok(ApplyFullSync)) && (shape.hasPending ==> ok(SaveCheckpoints))
  }

  /** The steps up to and with the first that fails. */
  function UpToFailure(ok: Succeeds, steps: seq<Action>): seq<Action> {
    if steps == [] then [] else if !ok(steps[0]) then [steps[0]] else [steps[0]] + UpToFailure(ok, steps[1..])
  }

  method ApplyCyclePlan(ok: Succeeds, shape: PlanShape) returns (tried: seq<Action>, success: bool)
    ensures tried == UpToFailure(ok, ApplySteps(shape))
    ensures success <==> Applies(ok, shape)
  {
    TriedSteps(ok, shape);
    tried := [ApplyUpsert];
    if !ok(ApplyUpsert) {
      return tried, false;
    }
    if shape.hasFullSync {
      tried := tried + [ApplyFullSync];
      if !ok(ApplyFullSync) {
        return tried, false;
      }
    }
    if shape.hasPending {
      tried := tried + [SaveCheckpoints];
      if !ok(SaveCheckpoints) {
        return tried, false;
      }
    }
    return tried, true;
  }

  lemma TriedSteps(ok: Succeeds, shape: PlanShape)
    ensures UpToFailure(ok, ApplySteps(shape)) ==
      if !ok(ApplyUpsert) then [ApplyUpsert]
      else if shape.hasFullSync && !ok(ApplyFullSync) then [ApplyUpsert, ApplyFullSync]
      else ApplySteps(shape)
  {
    var save := if shape.hasPending then [SaveCheckpoints] else [];
    var sync := (if shape.hasFullSync then [ApplyFullSync] else []) + save;
    assert UpToFailure(ok, save) == save by { assert [SaveCheckpoints][1..] == []; }
    assert UpToFailure(ok, sync) == if shape.hasFullSync && !ok(ApplyFullSync) then [ApplyFullSync] else sync by {
      if shape.hasFullSync { assert sync[1..] == save; } else { assert sync == save; }
    }
    assert ApplySteps(shape)[1..] == sync;
  }

  predicate Reached(ok: Succeeds, shape: PlanShape, a: Action) {
    || a == ApplyUpsert
    || (a == ApplyFullSync && shape.hasFullSync && ok(ApplyUpsert))
    || (a == SaveCheckpoints && shape.hasPending && ok(ApplyUpsert) && (shape.hasFullSync ==> ok(ApplyFullSync)))
  }

  /** Applying gets to a step exactly when all before it succeeded. */
  lemma AppliedSteps(ok: Succeeds, shape: PlanShape)
    ensures forall a :: a in UpToFailure(ok, ApplySteps(shape)) <==> Reached(ok, shape, a)
    ensures NoneTwice(UpToFailure(ok, ApplySteps(shape)))
  {
    TriedSteps(ok, shape);
  }

  /** How a cycle ends: with the runner going on, or with a fatal error before or after applying. */
  datatype Ending = Ended(outcome: RunOutcome) | FatalBefore | FatalAfter

  datatype Trace = Trace(tried: seq<Action>, ending: Ending)

  function CycleTrace(ok: Succeeds, shape: PlanShape, canFullSync: bool): Trace {
    if !ok(GeneratePlan) then Trace([GeneratePlan], FatalBefore)
    else if shape.hasFullSync && !canFullSync then Trace([GeneratePlan], FatalBefore)
    else if !ok(ExportSQL) then Trace([GeneratePlan, ExportSQL], FatalBefore)
    else
      var end := AfterApply(ok, shape);
      Trace([GeneratePlan, ExportSQL] + (UpToFailure(ok, ApplySteps(shape)) + end.tried), end.ending)
  }

  /** What follows the apply: the commit, or saving the SQL when the apply failed. */
  function AfterApply(ok: Succeeds, shape: PlanShape): Trace {
    if Applies(ok, shape) then Trace([CommitCycle], Ended(Succeeded))
    else if !shape.hasSql then Trace([], Ended(RunFailed))
    else Trace([WriteFile], if ok(WriteFile) then Ended(RunFailed) else FatalAfter)
  }

  function LastEvent(ending: Ending): Event {
    if ending.Ended? then Finish(ending.outcome) else Fail
  }

  predicate NoneTwice(actions: seq<Action>) {
    forall i, j :: 0 <= i < j < |actions| ==> actions[i] != actions[j]
  }

  /** A cycle commits exactly when everything it had to do succeeded. */
  lemma CommitsWhenAllSucceeds(ok: Succeeds, shape: PlanShape, canFullSync: bool)
    ensures var trace := CycleTrace(ok, shape, canFullSync);
            && (CommitCycle in trace.tried <==> trace.ending == Ended(Succeeded))
            && (CommitCycle in trace.tried <==>
                  ok(GeneratePlan) && (shape.hasFullSync ==> canFullSync) && ok(ExportSQL) && Applies(ok, shape))
  {
    AppliedSteps(ok, shape);
  }

  /** A cycle ends before applying exactly when the plan, its full sync or its SQL cannot be had. The SQL is
      written to a file exactly when applying failed and there is some, and only then can a cycle that got to
      applying end with a fatal error. */
  lemma EndingsTell(ok: Succeeds, shape: PlanShape, canFullSync: bool)
    ensures var trace := CycleTrace(ok, shape, canFullSync);
            var prepared := ok(GeneratePlan) && (shape.hasFullSync ==> canFullSync) && ok(ExportSQL);
            && (ApplyUpsert in trace.tried <==> prepared)
            && (trace.ending == FatalBefore <==> !prepared)
            && (WriteFile in trace.tried <==> prepared && !Applies(ok, shape) && shape.hasSql)
            && (trace.ending == FatalAfter <==> WriteFile in trace.tried && !ok(WriteFile))
            && (trace.ending == Ended(RunFailed) <==>
                  prepared && !Applies(ok, shape) && (shape.hasSql ==> ok(WriteFile)))
  {
    AppliedSteps(ok, shape);
  }

  /** Checkpoints are saved only after the upsert plan and the full sync were applied, and a commit
      only after they were saved. */
  lemma CheckpointsComeAfterApplies(ok: Succeeds, shape: PlanShape, canFullSync: bool)
    ensures var tried := CycleTrace(ok, shape, canFullSync).tried;
            && (SaveCheckpoints in tried ==>
                  && shape.hasPending && ApplyUpsert in tried && ok(ApplyUpsert)
                  && (shape.hasFullSync ==> ApplyFullSync in tried && ok(ApplyFullSync)))
            && (CommitCycle in tried && shape.hasPending ==> SaveCheckpoints in tried && ok(SaveCheckpoints))
  {
    AppliedSteps(ok, shape);
  }

  lemma NoneTwiceConcat(a: seq<Action>, b: seq<Action>)
    requires NoneTwice(a) && NoneTwice(b) && forall x :: x in a ==> x !in b
    ensures NoneTwice(a + b)
  {
    forall i, j | 0 <= i < |a| && 0 <= j < |b| ensures a[i] != b[j] { assert a[i] in a; }
  }

  /** No step of a cycle is taken twice. */
  lemma StepsAreTakenOnce(ok: Succeeds, shape: PlanShape, canFullSync: bool)
    ensures NoneTwice(CycleTrace(ok, shape, canFullSync).tried)
  {
    var applied := UpToFailure(ok, ApplySteps(shape));
    AppliedSteps(ok, shape);
    var last := AfterApply(ok, shape).tried;
    NoneTwiceConcat(applied, last);
    NoneTwiceConcat([GeneratePlan, ExportSQL], applied + last);
  }

  // ---- the runner ----

  function WorkEvents(ending: Ending): seq<Event> {
    match ending
    case Ended(outcome) => [StartApply, Finish(outcome)]
    case FatalBefore => [Fail]
    case FatalAfter => [StartApply, Fail]
  }

  function DrainEvents(pending: bool): seq<Event> {
    (if pending then [DrainOne] else []) + [DrainDone]
  }

  function StartEvents(pending: bool): seq<Event> {
    DrainEvents(pending) + [Begin]
  }

  /** What the drain steps come to. */
  function WithoutPending(s: State): State {
    if s.channel.Some? then s.(channel := None, fates := s.fates[s.channel.value := DrainedBy(s.cycle + 1)]) else s
  }

  function DrainedState(s: State): State {
    WithoutPending(s).(control := Drained, marks := s.marks[s.cycle + 1 := s.accepted])
  }

  lemma DrainIsRun(s: State)
    requires s.control == Ready
    ensures After(s, DrainEvents(s.channel.Some?)) == Some(DrainedState(s))
  {
    var empty := WithoutPending(s);
    if s.channel.Some? {
      Step(s, [], s, DrainOne, empty);
      assert [] + [DrainOne] == [DrainOne];
      Step(s, [DrainOne], empty, DrainDone, DrainedState(s));
    } else {
      Step(s, [], s, DrainDone, DrainedState(s));
    }
  }

  datatype TriggerResult = Accepted | Unsupported | Unavailable | AlreadyPending

  datatype Waking = SleptOut | WokenByTrigger | Cancelled | SleepFailed

  function WakingEvent(w: Waking): Event {
    match w
    case SleptOut => WakeBySleep
    case WokenByTrigger => WakeByTrigger
    case Cancelled => Cancel
    case SleepFailed => WaitFails
  }

  lemma OneStep(s: State, e: Event, next: State)
    requires Next(s, e) == Some(next)
    ensures After(s, [e]) == Some(next)
  {
    assert [e][..0] == [];
  }

  lemma TwoSteps(s: State, e1: Event, s1: State, e2: Event, s2: State)
    requires Next(s, e1) == Some(s1) && Next(s1, e2) == Some(s2)
    ensures After(s, [e1, e2]) == Some(s2)
  {
    OneStep(s, e1, s1);
    Step(s, [e1], s1, e2, s2);
    assert [e1] + [e2] == [e1, e2];
  }

  lemma {:induction false} RunOn(s: State, first: seq<Event>, at: State, second: seq<Event>, last: State)
    requires After(s, first) == Some(at) && After(at, second) == Some(last)
    ensures After(s, first + second) == Some(last)
    decreases |second|
  {
    if second == [] {
      assert first + second == first;
    } else {
      var front, e := second[..|second| - 1], second[|second| - 1];
      var before := After(at, front).value;
      RunOn(s, first, at, front, before);
      Step(s, first + front, before, e, last);
      assert first + front + [e] == first + second;
    }
  }

  /** The three ways a cycle can go. */
  lemma CycleCases(ok: Succeeds, shape: PlanShape, canFullSync: bool)
    ensures var trace := CycleTrace(ok, shape, canFullSync);
            if !ok(GeneratePlan) || (shape.hasFullSync && !canFullSync) then trace == Trace([GeneratePlan], FatalBefore)
            else if !ok(ExportSQL) then trace == Trace([GeneratePlan, ExportSQL], FatalBefore)
            else
              var end := AfterApply(ok, shape);
              var tried := UpToFailure(ok, ApplySteps(shape)) + end.tried;
              && trace == Trace([GeneratePlan, ExportSQL] + tried, end.ending)
              && WorkEvents(trace.ending) == [StartApply, LastEvent(end.ending)]
  {
  }

  class Runner {
    const periodic: bool
    const limit: nat
    var phase: Phase
    var cycle: nat
    var runHistory: seq<Summary>
    var triggerNext: bool
    ghost var model: State

    ghost predicate Valid()
      reads this
    {
      && model.periodic == periodic && model.limit == limit && model.phase == phase && model.cycle == cycle
      && model.history == runHistory && model.channel.Some? == triggerNext
    }

    constructor (periodic: bool, limit: nat)
      ensures Valid() && model == Init(periodic, limit) && this.periodic == periodic && this.limit == limit
    {
      this.periodic, this.limit := periodic, limit;
      phase, cycle, runHistory, triggerNext := Starting, 0, [], false;
      model := Init(periodic, limit);
    }

    /** Checks the phase and then sends, without waiting. */
    method TriggerCycle(ghost caller: nat) returns (r: TriggerResult)
      requires Valid() && caller !in model.senders
      modifies this`triggerNext, this`model
      ensures Valid()
      ensures r == if !periodic then Unsupported else if phase != Sleeping then Unavailable
                   else if old(triggerNext) then AlreadyPending else Accepted
      ensures After(old(model),
                    if r.Unsupported? then [] else if r.Unavailable? then [Poll(caller)]
                       else [Poll(caller), Send(caller)]) == Some(model)
      ensures model.accepted == old(model.accepted) + (if r.Accepted? then 1 else 0)
      ensures model.senders == old(model.senders) && (!r.Accepted? ==> model == old(model))
    {
      if !periodic {
        return Unsupported;
      }
      ghost var before := model;
      Step(before, [], before, Poll(caller), Next(before, Poll(caller)).value);
      assert [] + [Poll(caller)] == [Poll(caller)];
      model := Next(model, Poll(caller)).value;
      if phase != Sleeping {
        return Unavailable;
      }
      Step(before, [Poll(caller)], model, Send(caller), Next(model, Send(caller)).value);
      model := Next(model, Send(caller)).value;
      if triggerNext {
        return AlreadyPending;
      }
      triggerNext := true;
      return Accepted;
    }

    method DrainTriggerSignal()
      requires Valid() && model.control == Ready
      modifies this`triggerNext, this`model
      ensures Valid() && !triggerNext && model == DrainedState(old(model))
      ensures After(old(model), DrainEvents(old(triggerNext))) == Some(model)
    {
      DrainIsRun(model);
      ghost var before := model;
      while triggerNext
        invariant Valid() && model.control == Ready && DrainedState(model) == DrainedState(before)
        decreases triggerNext
      {
        model := WithoutPending(model);
        triggerNext := false;
      }
      model := DrainedState(model);
    }

    method StartRun()
      requires Valid() && model.control == Ready
      modifies this
      ensures Valid() && phase == RunningFetch && cycle == old(cycle) + 1 && !triggerNext &&
              runHistory == old(runHistory)
      ensures After(old(model), StartEvents(old(triggerNext))) == Some(model)
      ensures model.control == Fetching
    {
      ghost var before, drain := model, DrainEvents(triggerNext);
      DrainTriggerSignal();
      Step(before, drain, model, Begin, Next(model, Begin).value);
      model := Next(model, Begin).value;
      cycle, phase := cycle + 1, RunningFetch;
    }

    method UpdateApplyMetrics()
      requires Valid() && model.control == Fetching
      modifies this`phase, this`model
      ensures Valid() && phase == RunningApply && Next(old(model), StartApply) == Some(model)
    {
      model := Next(model, StartApply).value;
      phase := RunningApply;
    }

    method AppendSummary(summary: Summary)
      modifies this`runHistory
      ensures runHistory == if |old(runHistory)| + 1 > limit then ([summary] + old(runHistory))[..limit]
              else [summary] + old(runHistory)
    {
      runHistory := [summary] + runHistory;
      if |runHistory| > limit {
        runHistory := runHistory[..limit];
      }
    }

    method FinishRun(outcome: RunOutcome)
      requires Valid() && model.control == Applying
      modifies this`phase, this`runHistory, this`model
      ensures Valid() && Next(old(model), Finish(outcome)) == Some(model)
    {
      model := Next(model, Finish(outcome)).value;
      if !periodic {
        phase := if outcome == Succeeded then Completed else PhaseFailed;
      }
      AppendSummary(Summary(cycle, phase, outcome));
    }

    method FailRun()
      requires Valid() && (model.control == Fetching || model.control == Applying)
      modifies this`phase, this`runHistory, this`model
      ensures Valid() && phase == PhaseFailed && Next(old(model), Fail) == Some(model)
    {
      model := Next(model, Fail).value;
      phase := PhaseFailed;
      AppendSummary(Summary(cycle, phase, RunFailed));
    }

    /** Applies a plan and ends the cycle. */
    method ApplyAndFinish(ok: Succeeds, shape: PlanShape) returns (tried: seq<Action>, fatal: bool)
      requires Valid() && model.control == Applying
      modifies this`phase, this`runHistory, this`model
      ensures Valid()
      ensures tried == UpToFailure(ok, ApplySteps(shape)) + AfterApply(ok, shape).tried
      ensures fatal <==> AfterApply(ok, shape).ending == FatalAfter
      ensures Next(old(model), LastEvent(AfterApply(ok, shape).ending)) == Some(model)
    {
      var applied, success := ApplyCyclePlan(ok, shape);
      if success {
        FinishRun(Succeeded);
        return applied + [CommitCycle], false;
      }
      if !shape.hasSql {
        FinishRun(RunFailed);
        return applied + [], false;
      }
      if !ok(WriteFile) {
        FailRun();
        return applied + [WriteFile], true;
      }
      FinishRun(RunFailed);
      return applied + [WriteFile], false;
    }

    /** The work of a cycle that has started, to its summary. */
    method WorkCycle(ok: Succeeds, shape: PlanShape, canFullSync: bool) returns (tried: seq<Action>, fatal: bool)
      requires Valid() && model.control == Fetching
      modifies this`phase, this`runHistory, this`model
      ensures Valid() && tried == CycleTrace(ok, shape, canFullSync).tried
      ensures fatal <==> !CycleTrace(ok, shape, canFullSync).ending.Ended?
      ensures After(old(model), WorkEvents(CycleTrace(ok, shape, canFullSync).ending)) == Some(model)
    {
      ghost var fetching := model;
      CycleCases(ok, shape, canFullSync);
      if !ok(GeneratePlan) || (shape.hasFullSync && !canFullSync) {
        FailRun();
        OneStep(fetching, Fail, model);
        return [GeneratePlan], true;
      }
      if !ok(ExportSQL) {
        FailRun();
        OneStep(fetching, Fail, model);
        return [GeneratePlan, ExportSQL], true;
      }
      UpdateApplyMetrics();
      ghost var applying, last := model, LastEvent(AfterApply(ok, shape).ending);
      tried, fatal := ApplyAndFinish(ok, shape);
      TwoSteps(fetching, StartApply, applying, last, model);
      tried := [GeneratePlan, ExportSQL] + tried;
    }

    /** One cycle, in either mode, from its start to its summary. */
    method RunCycle(ok: Succeeds, shape: PlanShape, canFullSync: bool) returns (tried: seq<Action>, fatal: bool)
      requires Valid() && model.control == Ready
      modifies this
      ensures Valid() && tried == CycleTrace(ok, shape, canFullSync).tried
      ensures fatal <==> !CycleTrace(ok, shape, canFullSync).ending.Ended?
      ensures After(old(model),
                    StartEvents(old(triggerNext)) + WorkEvents(CycleTrace(ok, shape, canFullSync).ending)) ==
                    Some(model)
    {
      ghost var before, start := model, StartEvents(triggerNext);
      StartRun();
      ghost var fetching := model;
      tried, fatal := WorkCycle(ok, shape, canFullSync);
      RunOn(before, start, fetching, WorkEvents(CycleTrace(ok, shape, canFullSync).ending), model);
    }

    /** Sleeps after a cycle; a pending trigger may end the sleep. */
    method SleepUntilNextCycle(waking: Waking) returns (goesOn: bool)
      requires Valid() && model.control == Finished && (waking == WokenByTrigger ==> triggerNext)
      modifies this`phase, this`triggerNext, this`model
      ensures Valid() && After(old(model), [Sleep, WakingEvent(waking)]) == Some(model)
      ensures goesOn <==> model.control == Ready
      ensures phase == match waking
                       case SleptOut => Sleeping
                       case WokenByTrigger => Sleeping
                       case Cancelled => Stopping
                       case SleepFailed => PhaseFailed
      ensures triggerNext == (old(triggerNext) && waking != WokenByTrigger)
    {
      ghost var before := model;
      Step(before, [], before, Sleep, Next(before, Sleep).value);
      assert [] + [Sleep] == [Sleep];
      model := Next(model, Sleep).value;
      phase := Sleeping;
      Step(before, [Sleep], model, WakingEvent(waking), Next(model, WakingEvent(waking)).value);
      model := Next(model, WakingEvent(waking)).value;
      match waking
      case SleptOut => return true;
      case WokenByTrigger =>
        triggerNext := false;
        return true;
      case Cancelled =>
        phase := Stopping;
        return false;
      case SleepFailed =>
        phase := PhaseFailed;
        return false;
    }
  }
}
