/** The runner and its trigger callers as interleaved atomic steps. */
module RunnerSteps {
  import opened Common

  datatype Phase = Starting | RunningFetch | RunningApply | Sleeping | Completed | PhaseFailed | Stopping

  datatype RunOutcome = Succeeded | RunFailed

  datatype Summary = Summary(cycle: nat, phase: Phase, outcome: RunOutcome)

  /** Where the runner's own thread stands. `Ready` is before or inside the drain loop of a cycle
      start, `Drained` just after it. */
  datatype Control = Ready | Drained | Fetching | Applying | Finished | Waiting | Halted

  /** What became of an accepted trigger: it woke the runner for a cycle, or a cycle start drained it. */
  datatype Fate = Woke(cycle: nat) | DrainedBy(cycle: nat)

  /** `channel` is the trigger channel of capacity one, holding the number of an accepted trigger;
      `senders` are the callers that saw the runner sleeping and have not sent yet. The last four
      fields only record: fates of accepted triggers, how many were accepted before each cycle
      began, and how many cycles were summarised. */
  datatype State = State(periodic: bool, limit: nat, control: Control, phase: Phase, cycle: nat, history: seq<Summary>,
                         channel: Option<nat>, senders: set<nat>,
                         accepted: nat, fates: map<nat, Fate>, marks: map<nat, nat>, summarised: nat)

  datatype Event =
    | Poll(caller: nat) | Send(caller: nat)
    | DrainOne | DrainDone | Begin | StartApply | Finish(outcome: RunOutcome) | Fail
    | Sleep | WakeBySleep | WakeByTrigger | Cancel | WaitFails

  function Init(periodic: bool, limit: nat): State {
    State(periodic, limit, Ready, Starting, 0, [], None, {}, 0, map[], map[], 0)
  }

  /** The history with one more summary, newest first, cut to the limit. */
  function Remember(s: State, summary: Summary): State {
    var all := [summary] + s.history;
    s.(history := if |all| > s.limit then all[..s.limit] else all, phase := summary.phase, summarised :=
        s.summarised + 1)
  }

  function FinishPhase(s: State, outcome: RunOutcome): Phase {
    if s.periodic then s.phase else if outcome == Succeeded then Completed else PhaseFailed
  }

  /** The state after a step; none when the step cannot happen now. */
  function Next(s: State, e: Event): Option<State> {
    match e
    case Poll(caller) =>
      Some(if s.periodic && s.phase == Sleeping then s.(senders := s.senders + {caller}) else s)
    case Send(caller) =>
      if caller !in s.senders then None
      else if s.channel.Some? then Some(s.(senders := s.senders - {caller}))
      else Some(s.(senders := s.senders - {caller}, channel := Some(s.accepted), accepted := s.accepted + 1))
    case DrainOne =>
      if s.control != Ready || s.channel.None? then None
      else Some(s.(channel := None, fates := s.fates[s.channel.value := DrainedBy(s.cycle + 1)]))
    case DrainDone =>
      if s.control != Ready || s.channel.Some? then None
      else Some(s.(control := Drained, marks := s.marks[s.cycle + 1 := s.accepted]))
    case Begin =>
      if s.control != Drained then None else Some(s.(control := Fetching, cycle := s.cycle + 1, phase := RunningFetch))
    case StartApply =>
      if s.control != Fetching then None else Some(s.(control := Applying, phase := RunningApply))
    case Finish(outcome) =>
      if s.control != Applying then None
      else Some(Remember(s, Summary(s.cycle, FinishPhase(s, outcome), outcome)).(control :=
          if s.periodic then Finished else Halted))
    case Fail =>
      if s.control != Fetching && s.control != Applying then None
      else Some(Remember(s, Summary(s.cycle, PhaseFailed, RunFailed)).(control := Halted))
    case Sleep =>
      if s.control != Finished then None else Some(s.(control := Waiting, phase := Sleeping))
    case WakeBySleep =>
      if s.control != Waiting then None else Some(s.(control := Ready))
    case WakeByTrigger =>
      if s.control != Waiting || s.channel.None? then None
      else Some(s.(control := Ready, channel := None, fates := s.fates[s.channel.value := Woke(s.cycle + 1)]))
    case Cancel =>
      if s.control != Waiting then None else Some(s.(control := Halted, phase := Stopping))
    case WaitFails =>
      if s.control != Waiting then None else Some(s.(control := Halted, phase := PhaseFailed))
  }

  /** The state after a run of steps; none when one of them cannot happen. */
  function After(s: State, events: seq<Event>): Option<State> {
    if events == [] then Some(s)
    else
      match After(s, events[..|events| - 1])
      case None => None
      case Some(before) => Next(before, events[|events| - 1])
  }

  // ---- what every interleaving keeps ----

  /** Every accepted trigger is pending or has one fate, and at most one woke each cycle. */
  predicate TriggersAccounted(s: State) {
    && (s.channel.Some? ==> s.channel.value < s.accepted && s.channel.value !in s.fates)
    && (forall id :: 0 <= id < s.accepted ==> id in s.fates || s.channel == Some(id))
    && (forall id :: id in s.fates ==> id < s.accepted)
    && (forall i, j :: i in s.fates && j in s.fates && s.fates[i].Woke? && s.fates[i] == s.fates[j] ==> i == j)
  }

  predicate Begun(s: State) {
    s.control == Fetching || s.control == Applying
  }

  /** The cycle whose start has been drained last. */
  function DrainedCycle(s: State): nat {
    if s.control == Drained then s.cycle + 1 else s.cycle
  }

  /** Fates are of cycles that began or are about to, and wakes of cycles after the first. */
  predicate FatesInRange(s: State) {
    && (s.control != Ready && s.control != Drained ==> s.cycle >= 1)
    && forall id :: id in s.fates ==>
         && (s.fates[id].cycle <= s.cycle ||
             (s.fates[id].cycle == s.cycle + 1 && (s.control == Ready || s.control == Drained)))
         && (s.fates[id].Woke? ==> s.fates[id].cycle > 1)
  }

  /** Every cycle start has its mark. */
  predicate StartsAreMarked(s: State) {
    forall n :: 1 <= n <= DrainedCycle(s) ==> n in s.marks && s.marks[n] <= s.accepted
  }

  /** A trigger that woke a cycle was accepted after the start of the cycle before. */
  predicate WakesAreFresh(s: State) {
    forall id ::
      id in s.fates && s.fates[id].Woke? ==> s.fates[id].cycle - 1 in s.marks && s.marks[s.fates[id].cycle - 1] <= id
  }

  /** A trigger that is pending past a cycle start was accepted after it. */
  predicate PendingIsFresh(s: State) {
    s.control != Ready && s.channel.Some? ==> DrainedCycle(s) in s.marks && s.marks[DrainedCycle(s)] <= s.channel.value
  }

  /** Each cycle that ended has one summary, and the history is the newest of them, newest first. */
  predicate HistoryIsNewest(s: State) {
    && s.summarised == (if Begun(s) then s.cycle - 1 else s.cycle)
    && |s.history| == (if s.summarised < s.limit then s.summarised else s.limit)
    && forall i :: 0 <= i < |s.history| ==> s.history[i].cycle == s.summarised - i
  }

  predicate Inv(s: State) {
    TriggersAccounted(s) && FatesInRange(s) && StartsAreMarked(s) && WakesAreFresh(s) && PendingIsFresh(s) &&
    HistoryIsNewest(s)
  }

  lemma StepKeepsTriggers(s: State, e: Event)
    requires TriggersAccounted(s) && FatesInRange(s) && Next(s, e).Some?
    ensures TriggersAccounted(Next(s, e).value)
  {
  }

  lemma StepKeepsRange(s: State, e: Event)
    requires FatesInRange(s) && Next(s, e).Some?
    ensures FatesInRange(Next(s, e).value)
  {
  }

  lemma StepKeepsMarks(s: State, e: Event)
    requires StartsAreMarked(s) && Next(s, e).Some?
    ensures StartsAreMarked(Next(s, e).value)
  {
  }

  lemma StepKeepsWakes(s: State, e: Event)
    requires FatesInRange(s) && WakesAreFresh(s) && PendingIsFresh(s) && Next(s, e).Some?
    ensures WakesAreFresh(Next(s, e).value)
  {
  }

  lemma StepKeepsPending(s: State, e: Event)
    requires FatesInRange(s) && StartsAreMarked(s) && PendingIsFresh(s) && Next(s, e).Some?
    ensures PendingIsFresh(Next(s, e).value)
  {
  }

  lemma StepKeepsHistory(s: State, e: Event)
    requires FatesInRange(s) && HistoryIsNewest(s) && Next(s, e).Some?
    ensures HistoryIsNewest(Next(s, e).value)
  {
  }

  lemma StepKeeps(s: State, e: Event)
    requires Inv(s) && Next(s, e).Some?
    ensures Inv(Next(s, e).value)
  {
    StepKeepsTriggers(s, e);
    StepKeepsRange(s, e);
    StepKeepsMarks(s, e);
    StepKeepsWakes(s, e);
    StepKeepsPending(s, e);
    StepKeepsHistory(s, e);
  }

  lemma {:induction false} RunKeepsFrom(s: State, events: seq<Event>)
    requires Inv(s) && After(s, events).Some?
    ensures Inv(After(s, events).value)
    decreases |events|
  {
    if events != [] {
      RunKeepsFrom(s, events[..|events| - 1]);
      StepKeeps(After(s, events[..|events| - 1]).value, events[|events| - 1]);
    }
  }

  lemma RunKeeps(periodic: bool, limit: nat, events: seq<Event>)
    requires After(Init(periodic, limit), events).Some?
    ensures Inv(After(Init(periodic, limit), events).value)
  {
    RunKeepsFrom(Init(periodic, limit), events);
  }

  // ---- what the history says ----

  /** The ends of cycles among the events, in order. */
  function Endings(events: seq<Event>): seq<Event> {
    if events == [] then []
    else
      var front, last := Endings(events[..|events| - 1]), events[|events| - 1];
      if last.Finish? || last.Fail? then front + [last] else front
  }

  /** The summary of the n-th cycle, from the event that ended it. A fatal error fails the phase; in
      the periodic mode a cycle that ends otherwise is summarised in the apply phase. */
  predicate Summarises(periodic: bool, n: nat, ending: Event, summary: Summary) {
    && summary.cycle == n
    && (ending.Fail? ==> summary.outcome == RunFailed && summary.phase == PhaseFailed)
    && (ending.Finish? ==> summary.outcome == ending.outcome)
    && (ending.Finish? && periodic ==> summary.phase == RunningApply)
    && (ending.Finish? && !periodic ==> summary.phase == if ending.outcome == Succeeded then Completed else PhaseFailed)
  }

  /** The history is that of the last endings, newest first, cut to the limit. */
  predicate Tells(s: State, endings: seq<Event>) {
    && s.summarised == |endings| && (s.control == Applying ==> s.phase == RunningApply)
    && |s.history| == (if |endings| < s.limit then |endings| else s.limit)
    && forall i :: 0 <= i < |s.history| ==>
         Summarises(s.periodic, |endings| - i, endings[|endings| - 1 - i], s.history[i])
  }

  lemma NewestFirst(periodic: bool, history: seq<Summary>, endings: seq<Event>, summary: Summary, e: Event)
    requires |history| <= |endings| && Summarises(periodic, |endings| + 1, e, summary)
    requires forall i :: 0 <= i < |history| ==>
               Summarises(periodic, |endings| - i, endings[|endings| - 1 - i], history[i])
    ensures var all, more := [summary] + history, endings + [e];
            forall i :: 0 <= i < |all| ==> Summarises(periodic, |more| - i, more[|more| - 1 - i], all[i])
  {
    var all, more := [summary] + history, endings + [e];
    forall i | 0 <= i < |all| ensures Summarises(periodic, |more| - i, more[|more| - 1 - i], all[i]) {
      if i > 0 {
        assert all[i] == history[i - 1] && more[|more| - 1 - i] == endings[|endings| - i];
      }
    }
  }

  lemma RememberTells(s: State, summary: Summary, e: Event, endings: seq<Event>, control: Control)
    requires Tells(s, endings) && Summarises(s.periodic, |endings| + 1, e, summary) && control != Applying
    ensures Tells(Remember(s, summary).(control := control), endings + [e])
  {
    NewestFirst(s.periodic, s.history, endings, summary, e);
  }

  lemma EndingTells(s: State, e: Event, endings: seq<Event>)
    requires HistoryIsNewest(s) && Tells(s, endings) && Next(s, e).Some? && (e.Finish? || e.Fail?)
    ensures Tells(Next(s, e).value, endings + [e])
  {
    var control := Next(s, e).value.control;
    if e.Finish? {
      RememberTells(s, Summary(s.cycle, FinishPhase(s, e.outcome), e.outcome), e, endings, control);
    } else {
      RememberTells(s, Summary(s.cycle, PhaseFailed, RunFailed), e, endings, control);
    }
  }

  lemma OtherStepTells(s: State, e: Event, endings: seq<Event>)
    requires Tells(s, endings) && Next(s, e).Some? && !e.Finish? && !e.Fail?
    ensures Tells(Next(s, e).value, endings)
  {
  }

  /** Each cycle that ended has one summary with the outcome that the cycle ended with; the history
      holds the newest of them up to the limit, newest first. */
  lemma {:induction false} HistoryTellsEndings(periodic: bool, limit: nat, events: seq<Event>)
    requires After(Init(periodic, limit), events).Some?
    ensures Tells(After(Init(periodic, limit), events).value, Endings(events))
    decreases |events|
  {
    if events != [] {
      var front := events[..|events| - 1];
      HistoryTellsEndings(periodic, limit, front);
      RunKeeps(periodic, limit, front);
      var at, last := After(Init(periodic, limit), front).value, events[|events| - 1];
      if last.Finish? || last.Fail? {
        EndingTells(at, last, Endings(front));
      } else {
        OtherStepTells(at, last, Endings(front));
      }
    }
  }

  // ---- what the phase says, and when the runner stops ----

  /** The published phase is that of the work at hand; while a cycle is about to start it is still that of
      before, and a runner that has stopped says why. */
  predicate PhaseFits(s: State) {
    match s.control
    case Ready => if s.cycle == 0 then s.phase == Starting else s.periodic && s.phase == Sleeping
    case Drained => if s.cycle == 0 then s.phase == Starting else s.periodic && s.phase == Sleeping
    case Fetching => s.phase == RunningFetch
    case Applying => s.phase == RunningApply
    case Finished => s.periodic && s.phase == RunningApply
    case Waiting => s.periodic && s.phase == Sleeping
    case Halted => s.phase == PhaseFailed || s.phase == if s.periodic then Stopping else Completed
  }

  predicate FromCaller(e: Event) {
    e.Poll? || e.Send?
  }

  /** A fatal error, a cancelled or failed sleep and, in the one-shot mode, the end of a cycle. */
  predicate EndsRunner(periodic: bool, e: Event) {
    e.Fail? || e.Cancel? || e.WaitFails? || (e.Finish? && !periodic)
  }

  /** In every interleaving the phase fits what the runner does; the runner has stopped exactly when an
      ending step was taken, and after it only callers act. */
  lemma {:induction false} StopsExactlyWhen(periodic: bool, limit: nat, events: seq<Event>)
    requires After(Init(periodic, limit), events).Some?
    ensures var s := After(Init(periodic, limit), events).value;
            && s.periodic == periodic && PhaseFits(s)
            && (s.control == Halted <==> exists i :: 0 <= i < |events| && EndsRunner(periodic, events[i]))
    ensures forall i, j :: 0 <= i < j < |events| && EndsRunner(periodic, events[i]) ==> FromCaller(events[j])
    decreases |events|
  {
    if events != [] {
      var front, last := events[..|events| - 1], events[|events| - 1];
      StopsExactlyWhen(periodic, limit, front);
      RunKeeps(periodic, limit, front);
      assert events == front + [last];
      StepStops(After(Init(periodic, limit), front).value, last);
      OneMoreEnding(periodic, front, last);
    }
  }

  lemma StepStops(s: State, e: Event)
    requires FatesInRange(s) && PhaseFits(s) && Next(s, e).Some?
    ensures Next(s, e).value.periodic == s.periodic && PhaseFits(Next(s, e).value)
    ensures s.control == Halted ==> FromCaller(e)
    ensures Next(s, e).value.control == Halted <==> s.control == Halted || EndsRunner(s.periodic, e)
  {
  }

  lemma OneMoreEnding(periodic: bool, front: seq<Event>, last: Event)
    ensures (exists i :: 0 <= i < |front + [last]| && EndsRunner(periodic, (front + [last])[i])) <==>
            (exists i :: 0 <= i < |front| && EndsRunner(periodic, front[i])) || EndsRunner(periodic, last)
  {
    var all := front + [last];
    assert all[|front|] == last;
    if i :| 0 <= i < |front| && EndsRunner(periodic, front[i]) {
      assert all[i] == front[i];
    }
  }

  // ---- who sends ----

  /** The caller looked at the runner in the `i`-th step and saw it asleep. */
  predicate SawSleep(periodic: bool, limit: nat, events: seq<Event>, i: nat, caller: nat) {
    && i < |events| && events[i] == Poll(caller)
    && var before := After(Init(periodic, limit), events[..i]);
       before.Some? && before.value.phase == Sleeping
  }

  ghost predicate HasSeenSleep(periodic: bool, limit: nat, events: seq<Event>, n: nat, caller: nat) {
    exists i: nat :: i < n && SawSleep(periodic, limit, events, i, caller)
  }

  lemma SeenEarlier(periodic: bool, limit: nat, events: seq<Event>, more: seq<Event>, n: nat, caller: nat)
    requires HasSeenSleep(periodic, limit, events, n, caller) && events <= more
    ensures HasSeenSleep(periodic, limit, more, n, caller)
  {
    var i: nat :| i < n && SawSleep(periodic, limit, events, i, caller);
    assert more[..i] == events[..i];
    assert SawSleep(periodic, limit, more, i, caller);
  }

  /** In every interleaving a caller that is about to send, and every caller that sends, has seen the
      runner asleep before; so a runner in the one-shot mode is never triggered. */
  lemma {:induction false} SendersSawSleep(periodic: bool, limit: nat, events: seq<Event>)
    requires After(Init(periodic, limit), events).Some?
    ensures forall c :: c in After(Init(periodic, limit), events).value.senders ==>
                          periodic && HasSeenSleep(periodic, limit, events, |events|, c)
    ensures forall j: nat :: j < |events| && events[j].Send? ==>
                               periodic && HasSeenSleep(periodic, limit, events, j, events[j].caller)
    decreases |events|
  {
    if events != [] {
      var front, last := events[..|events| - 1], events[|events| - 1];
      var before, after := After(Init(periodic, limit), front).value, After(Init(periodic, limit), events).value;
      SendersSawSleep(periodic, limit, front);
      StopsExactlyWhen(periodic, limit, front);
      forall c | c in after.senders ensures periodic && HasSeenSleep(periodic, limit, events, |events|, c) {
        if c in before.senders {
          SeenEarlier(periodic, limit, front, events, |front|, c);
        } else {
          assert SawSleep(periodic, limit, events, |front|, c);
        }
      }
      forall j: nat | j < |events| && events[j].Send?
        ensures periodic && HasSeenSleep(periodic, limit, events, j, events[j].caller)
      {
        SeenEarlier(periodic, limit, front, events, j, events[j].caller);
      }
    }
  }

  // ---- counting triggers ----

  function Consumed(s: State): set<nat> {
    set id | id in s.fates && s.fates[id].Woke?
  }

  function DrainedIds(s: State): set<nat> {
    set id | id in s.fates && s.fates[id].DrainedBy?
  }

  /** The cycles that started early. */
  function EarlyStarts(s: State): set<nat> {
    set id | id in Consumed(s) :: s.fates[id].cycle
  }

  lemma {:induction false} IdsBelow(n: nat, ids: set<nat>)
    requires forall id :: id in ids <==> 0 <= id < n
    ensures |ids| == n
    decreases n
  {
    if n > 0 {
      IdsBelow(n - 1, ids - {n - 1});
    }
  }

  lemma {:induction false} ImageSize(ids: set<nat>, fates: map<nat, Fate>)
    requires ids <= fates.Keys
    requires forall i, j :: i in ids && j in ids && fates[i].cycle == fates[j].cycle ==> i == j
    ensures |set id | id in ids :: fates[id].cycle| == |ids|
    decreases ids
  {
    var image := set id | id in ids :: fates[id].cycle;
    if ids != {} {
      var id :| id in ids;
      ImageSize(ids - {id}, fates);
      assert image == (set i | i in ids - {id} :: fates[i].cycle) + {fates[id].cycle};
    }
  }

  function PendingIds(s: State): set<nat> {
    if s.channel.Some? then {s.channel.value} else {}
  }

  lemma FatesSplit(s: State)
    ensures |s.fates| == |Consumed(s)| + |DrainedIds(s)|
  {
    assert s.fates.Keys == Consumed(s) + DrainedIds(s) && Consumed(s) !! DrainedIds(s);
  }

  lemma AcceptedSplit(accepted: nat, fates: set<nat>, pending: set<nat>)
    requires fates !! pending && forall id :: id in fates + pending <==> 0 <= id < accepted
    ensures accepted == |fates| + |pending|
  {
    IdsBelow(accepted, fates + pending);
  }

  /** In every interleaving at most one trigger is pending, every accepted one is pending, was
      consumed by one wake or was drained by one cycle start, and there are as many early starts as
      consumed triggers, so never more than accepted ones. */
  lemma TriggersAreConserved(periodic: bool, limit: nat, events: seq<Event>)
    requires After(Init(periodic, limit), events).Some?
    ensures var s := After(Init(periodic, limit), events).value;
            && s.accepted == |Consumed(s)| + |DrainedIds(s)| + |PendingIds(s)| && |PendingIds(s)| <= 1
            && |EarlyStarts(s)| == |Consumed(s)| <= s.accepted
  {
    RunKeeps(periodic, limit, events);
    var s := After(Init(periodic, limit), events).value;
    ImageSize(Consumed(s), s.fates);
    FatesSplit(s);
    AcceptedSplit(s.accepted, s.fates.Keys, PendingIds(s));
  }

  /** The runner woken by its timer and past the drain of the next cycle, while a caller that saw it
      asleep has not sent yet. */
  function PastDrain(s: State, caller: nat): State {
    s.(senders := s.senders + {caller}, control := Drained, marks := s.marks[s.cycle + 1 := s.accepted])
  }

  lemma WakesPastDrain(s: State, caller: nat)
    requires s.periodic && s.control == Waiting && s.phase == Sleeping && s.channel.None?
    ensures After(s, [Poll(caller), WakeBySleep, DrainDone]) == Some(PastDrain(s, caller))
  {
    var asked := s.(senders := s.senders + {caller});
    ThreeSteps(s, Poll(caller), asked, WakeBySleep, asked.(control := Ready), DrainDone, PastDrain(s, caller));
  }

  function Begins(s: State): State {
    s.(control := Fetching, cycle := s.cycle + 1, phase := RunningFetch)
  }

  function Sends(s: State, caller: nat): State {
    s.(senders := s.senders - {caller}, channel := Some(s.accepted), accepted := s.accepted + 1)
  }

  lemma BeginsAndSends(s: State, events: seq<Event>, at: State, caller: nat)
    requires After(s, events) == Some(at) && at.control == Drained && at.channel.None? && caller in at.senders
    ensures After(s, events + [Begin] + [Send(caller)]) == Some(Sends(Begins(at), caller))
  {
    Step(s, events, at, Begin, Begins(at));
    Step(s, events + [Begin], Begins(at), Send(caller), Sends(Begins(at), caller));
  }

  /** A caller saw the runner asleep, and its signal lands after the next cycle has drained the
      channel: a trigger is accepted while a cycle runs. */
  lemma TriggerLandsLate(s: State, caller: nat) returns (sent: State)
    requires s.periodic && s.control == Waiting && s.phase == Sleeping && s.channel.None?
    ensures After(s, [Poll(caller), WakeBySleep, DrainDone, Begin, Send(caller)]) == Some(sent)
    ensures sent.control == Fetching && sent.channel == Some(s.accepted) && sent.cycle == s.cycle + 1 && sent.periodic
  {
    var events := [Poll(caller), WakeBySleep, DrainDone];
    WakesPastDrain(s, caller);
    BeginsAndSends(s, events, PastDrain(s, caller), caller);
    sent := Sends(Begins(PastDrain(s, caller)), caller);
    assert events + [Begin] + [Send(caller)] == [Poll(caller), WakeBySleep, DrainDone, Begin, Send(caller)];
  }

  /** What a caller can do without the runner. */
  predicate ByCaller(e: Event) {
    e.Poll? || e.Send?
  }

  predicate OnlyCallers(events: seq<Event>) {
    forall i :: 0 <= i < |events| ==> ByCaller(events[i])
  }

  /** Once a sleep is over the runner is up, has stopped for good, or is past a further cycle start. */
  predicate SleepIsOver(s: State, t: State) {
    t.cycle > s.cycle || (t.cycle == s.cycle && (t.control == Ready || t.control == Drained || t.control == Halted))
  }

  lemma StepFromSleep(s: State, t: State, e: Event)
    requires s.control == Waiting && Next(t, e).Some?
    ensures t.control == Waiting && t.cycle == s.cycle ==>
              if ByCaller(e)
                   then Next(t, e).value.control == Waiting && Next(t, e).value.cycle == s.cycle &&
                        Next(t, e).value.phase == t.phase
              else SleepIsOver(s, Next(t, e).value)
    ensures SleepIsOver(s, t) ==> SleepIsOver(s, Next(t, e).value)
  {
  }

  /** From a sleeping runner: it is still in the same sleep exactly when only callers have acted. */
  lemma {:induction false} SameSleep(s: State, events: seq<Event>)
    requires s.control == Waiting && After(s, events).Some?
    ensures var t := After(s, events).value;
            && (t.control == Waiting && t.cycle == s.cycle <==> OnlyCallers(events))
            && (OnlyCallers(events) ==> t.phase == s.phase) && (!OnlyCallers(events) ==> SleepIsOver(s, t))
    decreases |events|
  {
    if events != [] {
      var front, last := events[..|events| - 1], events[|events| - 1];
      SameSleep(s, front);
      StepFromSleep(s, After(s, front).value, last);
      assert forall i :: 0 <= i < |front| ==> events[i] == front[i];
    }
  }

  /** When a trigger lands. A caller sees the runner asleep, other steps follow, and it sends: the
      signal lands in the sleep the caller saw exactly when neither a wake, a cancellation nor a
      failed wait stands between the two. */
  lemma TriggerLandsInItsSleep(s: State, caller: nat, between: seq<Event>)
    requires s.periodic && s.control == Waiting && s.phase == Sleeping
    requires After(s, [Poll(caller)] + between + [Send(caller)]).Some?
    ensures var sent := After(s, [Poll(caller)] + between + [Send(caller)]).value;
            && (sent.control == Waiting && sent.phase == Sleeping && sent.cycle == s.cycle <==> OnlyCallers(between))
  {
    var events := [Poll(caller)] + between + [Send(caller)];
    SameSleep(s, events);
    assert forall i :: 0 <= i < |between| ==> events[i + 1] == between[i];
    assert OnlyCallers(events) <==> OnlyCallers(between) by {
      assert events[0] == Poll(caller) && events[|events| - 1] == Send(caller);
      forall i | 0 <= i < |events| && OnlyCallers(between) ensures ByCaller(events[i]) {
        if 0 < i < |events| - 1 { assert events[i] == between[i - 1]; }
      }
    }
  }

  // ---- what a pending trigger comes to ----

  /** The first wake among the events. */
  function FirstWake(events: seq<Event>): Option<Event> {
    if events == [] then None
    else if FirstWake(events[..|events| - 1]).Some? then FirstWake(events[..|events| - 1])
    else if events[|events| - 1].WakeByTrigger? || events[|events| - 1].WakeBySleep? then Some(events[|events| - 1])
    else None
  }

  /** The trigger pending in `s`, once `t` is reached and the first wake since was `wake`: it is
      pending until then; a wake by trigger is its own; after any other the next cycle start drains
      it. */
  predicate ServesNextStart(s: State, t: State, id: nat, wake: Option<Event>) {
    var pending, start :=
        t.channel == Some(id) && id !in t.fates && DrainedCycle(t) == DrainedCycle(s), DrainedCycle(s) + 1;
    match wake
    case None => pending && t.control != Ready
    case Some(WakeByTrigger) => id in t.fates && t.fates[id] == Woke(start)
    case Some(_) => (pending && t.control == Ready) || (id in t.fates && t.fates[id] == DrainedBy(start))
  }

  lemma StepServes(s: State, t: State, id: nat, wake: Option<Event>, e: Event)
    requires TriggersAccounted(t) && ServesNextStart(s, t, id, wake) && Next(t, e).Some?
    requires wake.Some? ==> wake.value.WakeByTrigger? || wake.value.WakeBySleep?
    ensures ServesNextStart(s, Next(t, e).value, id,
              if wake.None? && (e.WakeByTrigger? || e.WakeBySleep?) then Some(e) else wake)
  {
  }

  lemma {:induction false} FirstWakeIsWake(events: seq<Event>)
    ensures FirstWake(events).Some? ==> FirstWake(events).value.WakeByTrigger? || FirstWake(events).value.WakeBySleep?
    decreases |events|
  {
    if events != [] {
      FirstWakeIsWake(events[..|events| - 1]);
    }
  }

  /** A trigger that is pending past the drain of a cycle start serves the next start and no other,
      in every interleaving: it cuts short the sleep in between, or is drained when that sleep ended
      by itself. */
  lemma {:induction false} PendingTriggerServesNextStart(s: State, id: nat, events: seq<Event>)
    requires Inv(s) && s.channel == Some(id) && s.control != Ready && After(s, events).Some?
    ensures ServesNextStart(s, After(s, events).value, id, FirstWake(events))
    decreases |events|
  {
    if events != [] {
      var front := events[..|events| - 1];
      PendingTriggerServesNextStart(s, id, front);
      RunKeepsFrom(s, front);
      FirstWakeIsWake(front);
      StepServes(s, After(s, front).value, id, FirstWake(front), events[|events| - 1]);
    }
  }

  lemma ThreeSteps(s: State, e1: Event, s1: State, e2: Event, s2: State, e3: Event, s3: State)
    requires Next(s, e1) == Some(s1) && Next(s1, e2) == Some(s2) && Next(s2, e3) == Some(s3)
    ensures After(s, [e1, e2, e3]) == Some(s3)
  {
    Step(s, [], s, e1, s1);
    assert [] + [e1] == [e1];
    Step(s, [e1], s1, e2, s2);
    assert [e1] + [e2] == [e1, e2];
    Step(s, [e1, e2], s2, e3, s3);
    assert [e1, e2] + [e3] == [e1, e2, e3];
  }

  lemma Step(s: State, before: seq<Event>, at: State, e: Event, next: State)
    requires After(s, before) == Some(at) && Next(at, e) == Some(next)
    ensures After(s, before + [e]) == Some(next)
  {
    assert (before + [e])[..|before|] == before;
  }
}
