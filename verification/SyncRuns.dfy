/** Whole runs of head-watermark synchronisation: feeds change, cycles fetch, apply and save, and
    any of these steps may fail. Every checkpoint key has its own feed and checkpoint. */
module SyncRuns {
  import opened Common
  import opened Watermarks
  import opened HeadWatermark
  import opened PageCuts

  datatype Source = Source(spec: Spec, pagination: Pagination)

  /** `delivered`: items of plans whose checkpoint was saved. `confirmed`: items of plans of
      cycles that succeeded from end to end. `arrived`: items that were ever put into the feed.
      `lost`: items that left the feed while they were still past the checkpoint. All four are
      history, kept for the theorems. */
  datatype KeyState = KeyState(
    feed: seq<Json>, stored: Stored,
    delivered: multiset<Json>, confirmed: multiset<Json>, arrived: multiset<Json>, lost: multiset<Json>)

  type World = map<string, KeyState>

  /** How a cycle ends once its plans are built: the database apply fails; saving fails at the
      `n`-th checkpoint; or everything succeeds. */
  datatype Fate = ApplyFails | SaveFails(n: nat) | Succeeds

  datatype Step =
    | Change(key: string, feed: seq<Json>, added: seq<Json>, dropped: seq<Json>)
    | Cycle(responses: map<string, seq<Response>>, order: seq<string>, fate: Fate)

  function CheckpointOf(stored: Stored): Option<CheckpointState> {
    if ParseHeadWatermarkCheckpoint(stored).Ok? then ParseHeadWatermarkCheckpoint(stored).value else None
  }

  function OutcomeFor(src: Source, st: KeyState, responses: seq<Response>): Outcome {
    FetchCycle(src.spec, st.stored, src.pagination, responses)
  }

  predicate HasPending(src: Source, st: KeyState, responses: seq<Response>) {
    OutcomeFor(src, st, responses).Fetched? && OutcomeFor(src, st, responses).pending.Some?
  }

  function PlanItems(src: Source, st: KeyState, responses: seq<Response>): multiset<Json> {
    var r := OutcomeFor(src, st, responses);
    if r.Fetched? then multiset(ItemsInAll(src.spec, r.payloads)) else multiset{}
  }

  function Keep(order: seq<string>, keys: set<string>): seq<string> {
    if order == [] then []
    else
      var front := Keep(order[..|order| - 1], keys);
      if order[|order| - 1] in keys then front + [order[|order| - 1]] else front
  }

  /** The keys with a pending checkpoint, in the order the scheduler queued them. */
  function PendingKeys(sources: map<string, Source>, w: World, responses: map<string, seq<Response>>,
                       order: seq<string>): seq<string>
    requires w.Keys == sources.Keys == responses.Keys
  {
    Keep(order, set k | k in w && HasPending(sources[k], w[k], responses[k]))
  }

  /** Postgres saves in one transaction, ClickHouse row by row. */
  function SavedKeys(transactional: bool, fate: Fate, pending: seq<string>): seq<string> {
    match fate
    case ApplyFails => []
    case SaveFails(n) => if transactional || n > |pending| then [] else pending[..n]
    case Succeeds => pending
  }

  function CycleKey(src: Source, st: KeyState, responses: seq<Response>, saved: bool, succeeded: bool): KeyState {
    var plan := PlanItems(src, st, responses);
    st.(stored := if saved && HasPending(src, st, responses)
                  then BuildHeadWatermarkCheckpoint(OutcomeFor(src, st, responses).pending.value) else st.stored,
        delivered := if saved then st.delivered + plan else st.delivered,
        confirmed := if succeeded then st.confirmed + plan else st.confirmed)
  }

  /** Any item may leave the feed. New ones may appear anywhere a descending feed allows, but never
      behind the saved checkpoint and never under a key already recorded at its watermark. A record
      that is updated leaves the feed and arrives as a new item. */
  ghost predicate Changes(spec: Spec, st: KeyState, feed: seq<Json>, added: seq<Json>, dropped: seq<Json>) {
    && AllReadable(spec, feed) && Descending(spec, feed)
    && multiset(feed) + multiset(dropped) == multiset(st.feed) + multiset(added)
    && forall x :: x in added ==> Fresh(spec, CheckpointOf(st.stored), x)
  }

  function Changed(spec: Spec, st: KeyState, feed: seq<Json>, added: seq<Json>, dropped: seq<Json>): KeyState {
    st.(feed := feed, arrived := st.arrived + multiset(added),
        lost := st.lost + multiset(FreshItems(spec, CheckpointOf(st.stored), dropped)))
  }

  /** The API answers from the feed, or the fetch comes to nothing. */
  ghost predicate Honest(src: Source, st: KeyState, responses: seq<Response>) {
    || OutcomeFor(src, st, responses).Abandoned?
    || Serves(src.spec, CheckpointOf(st.stored), src.pagination, InitialValue(src.pagination), responses, 0, st.feed)
  }

  predicate Distinct(s: seq<string>) {
    forall i, j :: 0 <= i < j < |s| ==> s[i] != s[j]
  }

  ghost predicate ValidStep(sources: map<string, Source>, w: World, step: Step) {
    && w.Keys == sources.Keys
    && match step
       case Change(key, feed, added, dropped) => key in w && Changes(sources[key].spec, w[key], feed, added, dropped)
       case Cycle(responses, order, fate) =>
         && responses.Keys == w.Keys && Distinct(order)
         && (forall k :: k in order <==> k in w)
         && (fate.SaveFails? ==> fate.n < |PendingKeys(sources, w, responses, order)|)
         && (forall k :: k in w ==> Honest(sources[k], w[k], responses[k]))
  }

  ghost function Next(sources: map<string, Source>, transactional: bool, w: World, step: Step): (w': World)
    requires ValidStep(sources, w, step)
    ensures w'.Keys == w.Keys
  {
    match step
    case Change(key, feed, added, dropped) => w[key := Changed(sources[key].spec, w[key], feed, added, dropped)]
    case Cycle(responses, order, fate) =>
      var saved := SavedKeys(transactional, fate, PendingKeys(sources, w, responses, order));
      map k | k in w :: CycleKey(sources[k], w[k], responses[k], k in saved, fate.Succeeds?)
  }

  ghost predicate ValidRun(sources: map<string, Source>, transactional: bool, w: World, steps: seq<Step>)
    decreases |steps|, 0
  {
    steps == [] ||
    (ValidRun(sources, transactional, w, steps[..|steps| - 1]) &&
     ValidStep(sources, Run(sources, transactional, w, steps[..|steps| - 1]), steps[|steps| - 1]))
  }

  ghost function Run(sources: map<string, Source>, transactional: bool, w: World, steps: seq<Step>): World
    requires ValidRun(sources, transactional, w, steps)
    decreases |steps|, 1
  {
    if steps == [] then w
    else Next(sources, transactional, Run(sources, transactional, w, steps[..|steps| - 1]), steps[|steps| - 1])
  }

  // ---- one key ----

  ghost predicate KeyInv(spec: Spec, st: KeyState) {
    && AllReadable(spec, st.feed) && Descending(spec, st.feed)
    && ParseHeadWatermarkCheckpoint(st.stored).Ok?
    && Usable(spec, CheckpointOf(st.stored))
    && st.delivered + st.lost + multiset(FreshItems(spec, CheckpointOf(st.stored), st.feed)) == st.arrived
    && multiset(st.feed) + st.lost <= st.arrived
  }

  /** Nothing in the feed is fresh once the feed's own checkpoint is in force. */
  lemma {:induction false} NothingFreshAfter(spec: Spec, checkpoint: Option<CheckpointState>, feed: seq<Json>,
                                             part: seq<Json>)
    requires AllReadable(spec, feed) && Descending(spec, feed) && Usable(spec, checkpoint)
    requires forall x :: x in part ==> x in feed
    ensures var pending := PendingOf(spec, checkpoint, feed);
            FreshItems(spec, if pending.Some? then pending else checkpoint, part) == []
    decreases |part|
  {
    if part != [] {
      var x := part[|part| - 1];
      NothingFreshAfter(spec, checkpoint, feed, part[..|part| - 1]);
      assert x in part;
      var i :| 0 <= i < |feed| && feed[i] == x;
      assert ReadableItem(spec, feed[0]) && ReadableItem(spec, feed[i]);
      CmpOrders(spec, Mark(spec, feed[i]), Mark(spec, feed[0]), Mark(spec, feed[0]));
      if PendingOf(spec, checkpoint, feed).None? {
        CmpOrders(spec, Mark(spec, feed[i]), Mark(spec, feed[0]), checkpoint.value.mark);
      }
    }
  }

  lemma {:induction false} FreshCountedByMultiset(spec: Spec, checkpoint: Option<CheckpointState>, items: seq<Json>,
                                                  x: Json)
    ensures multiset(FreshItems(spec, checkpoint, items))[x] == if Fresh(spec, checkpoint, x) then multiset(items)[x]
            else 0
    decreases |items|
  {
    if items != [] {
      FreshCountedByMultiset(spec, checkpoint, items[..|items| - 1], x);
      assert items == items[..|items| - 1] + [items[|items| - 1]];
    }
  }

  lemma FreshChangesBy(spec: Spec, cp: Option<CheckpointState>, before: seq<Json>, added: seq<Json>,
                       dropped: seq<Json>, after: seq<Json>)
    requires multiset(after) + multiset(dropped) == multiset(before) + multiset(added)
    requires forall x :: x in added ==> Fresh(spec, cp, x)
    ensures multiset(FreshItems(spec, cp, after)) + multiset(FreshItems(spec, cp, dropped))
         == multiset(FreshItems(spec, cp, before)) + multiset(added)
  {
    var was, now := multiset(FreshItems(spec, cp, before)), multiset(FreshItems(spec, cp, after));
    var gone, more := multiset(FreshItems(spec, cp, dropped)), multiset(added);
    forall x ensures (now + gone)[x] == (was + more)[x] {
      FreshCountedByMultiset(spec, cp, before, x);
      FreshCountedByMultiset(spec, cp, dropped, x);
      FreshCountedByMultiset(spec, cp, after, x);
      assert (multiset(after) + multiset(dropped))[x] == (multiset(before) + more)[x];
      assert more[x] > 0 ==> x in added;
    }
  }

  lemma FreshAreSome(spec: Spec, cp: Option<CheckpointState>, items: seq<Json>)
    ensures multiset(FreshItems(spec, cp, items)) <= multiset(items)
  {
    forall x ensures multiset(FreshItems(spec, cp, items))[x] <= multiset(items)[x] {
      FreshCountedByMultiset(spec, cp, items, x);
    }
  }

  lemma AccountsBalance(delivered: multiset<Json>, lost: multiset<Json>, arrived: multiset<Json>, added: multiset<Json>,
                        ahead: multiset<Json>, later: multiset<Json>, gone: multiset<Json>)
    requires delivered + lost + ahead == arrived && later + gone == ahead + added
    ensures delivered + (lost + gone) + later == arrived + added
  {
    assert delivered + (lost + gone) + later == delivered + lost + (later + gone);
    assert arrived + added == delivered + lost + (ahead + added);
  }

  lemma ArrivalsCover(feed: multiset<Json>, feed': multiset<Json>, lost: multiset<Json>, arrived: multiset<Json>,
                      added: multiset<Json>, dropped: multiset<Json>, gone: multiset<Json>)
    requires feed + lost <= arrived && feed' + dropped == feed + added && gone <= dropped
    ensures feed' + (lost + gone) <= arrived + added
  {
    forall x ensures (feed' + (lost + gone))[x] <= (arrived + added)[x] {
      assert (feed' + dropped)[x] == (feed + added)[x];
      assert (feed + lost)[x] <= arrived[x] && gone[x] <= dropped[x];
    }
  }

  lemma ChangeKeepsKeyInv(spec: Spec, st: KeyState, feed: seq<Json>, added: seq<Json>, dropped: seq<Json>)
    requires KeyInv(spec, st) && Changes(spec, st, feed, added, dropped)
    ensures KeyInv(spec, Changed(spec, st, feed, added, dropped))
  {
    var cp := CheckpointOf(st.stored);
    var gone := multiset(FreshItems(spec, cp, dropped));
    FreshChangesBy(spec, cp, st.feed, added, dropped, feed);
    FreshAreSome(spec, cp, dropped);
    AccountsBalance(st.delivered, st.lost, st.arrived, multiset(added), multiset(FreshItems(spec, cp, st.feed)),
                    multiset(FreshItems(spec, cp, feed)), gone);
    ArrivalsCover(multiset(st.feed), multiset(feed), st.lost, st.arrived, multiset(added), multiset(dropped), gone);
  }

  /** What a fetch of an honest API amounts to. */
  lemma HonestOutcome(src: Source, st: KeyState, responses: seq<Response>)
    requires KeyInv(src.spec, st) && Honest(src, st, responses)
    ensures var cp := CheckpointOf(st.stored);
            var r := OutcomeFor(src, st, responses);
            r.Fetched? ==>
              && r.pending == PendingOf(src.spec, cp, st.feed)
              && PlanItems(src, st, responses) == multiset(FreshItems(src.spec, cp, st.feed))
  {
    var cp := CheckpointOf(st.stored);
    if OutcomeFor(src, st, responses).Fetched? {
      PageCutIndependence(src.spec, cp, st.stored, src.pagination, responses, st.feed);
    }
  }

  /** A plan without a pending checkpoint is empty. */
  lemma NoPendingNoItems(src: Source, st: KeyState, responses: seq<Response>)
    requires KeyInv(src.spec, st) && Honest(src, st, responses)
    ensures !HasPending(src, st, responses) ==> PlanItems(src, st, responses) == multiset{}
  {
    HonestOutcome(src, st, responses);
    NothingFreshAfter(src.spec, CheckpointOf(st.stored), st.feed, st.feed);
  }

  lemma SavedCheckpointReads(spec: Spec, cp: Option<CheckpointState>, feed: seq<Json>)
    requires AllReadable(spec, feed) && PendingOf(spec, cp, feed).Some?
    ensures var stored := BuildHeadWatermarkCheckpoint(PendingOf(spec, cp, feed).value);
            && ParseHeadWatermarkCheckpoint(stored) == Ok(PendingOf(spec, cp, feed))
            && Usable(spec, PendingOf(spec, cp, feed))
  {
    CheckpointRoundTrip(PendingOf(spec, cp, feed).value);
    assert ReadableItem(spec, feed[0]);
  }

  lemma AllDelivered(delivered: multiset<Json>, lost: multiset<Json>, ahead: multiset<Json>, arrived: multiset<Json>)
    requires delivered + lost + ahead == arrived
    ensures (delivered + ahead) + lost == arrived && (delivered + ahead) + lost + multiset{} == arrived
    ensures delivered + multiset{} == delivered
  {
  }

  lemma CycleKeepsKeyInv(src: Source, st: KeyState, responses: seq<Response>, saved: bool, succeeded: bool)
    requires KeyInv(src.spec, st) && Honest(src, st, responses)
    ensures KeyInv(src.spec, CycleKey(src, st, responses, saved, succeeded))
    ensures saved && HasPending(src, st, responses) ==>
              CycleKey(src, st, responses, saved, succeeded).delivered + st.lost == st.arrived
  {
    var cp := CheckpointOf(st.stored);
    HonestOutcome(src, st, responses);
    NoPendingNoItems(src, st, responses);
    AllDelivered(st.delivered, st.lost, multiset(FreshItems(src.spec, cp, st.feed)), st.arrived);
    if saved && HasPending(src, st, responses) {
      SavedCheckpointReads(src.spec, cp, st.feed);
      NothingFreshAfter(src.spec, cp, st.feed, st.feed);
    }
  }

  // ---- all keys, whole runs ----

  ghost predicate Inv(sources: map<string, Source>, w: World) {
    w.Keys == sources.Keys && forall k :: k in w ==> KeyInv(sources[k].spec, w[k])
  }

  lemma StepKeepsInv(sources: map<string, Source>, transactional: bool, w: World, step: Step)
    requires Inv(sources, w) && ValidStep(sources, w, step)
    ensures Inv(sources, Next(sources, transactional, w, step))
  {
    match step
    case Change(key, feed, added, dropped) => ChangeKeepsKeyInv(sources[key].spec, w[key], feed, added, dropped);
    case Cycle(responses, order, fate) =>
      var saved := SavedKeys(transactional, fate, PendingKeys(sources, w, responses, order));
      forall k | k in w ensures KeyInv(sources[k].spec, Next(sources, transactional, w, step)[k]) {
        CycleKeepsKeyInv(sources[k], w[k], responses[k], k in saved, fate.Succeeds?);
      }
  }

  lemma {:induction false} RunKeepsInv(sources: map<string, Source>, transactional: bool, w: World, steps: seq<Step>)
    requires Inv(sources, w) && ValidRun(sources, transactional, w, steps)
    ensures Inv(sources, Run(sources, transactional, w, steps))
    decreases |steps|
  {
    if steps != [] {
      var front := steps[..|steps| - 1];
      RunKeepsInv(sources, transactional, w, front);
      StepKeepsInv(sources, transactional, Run(sources, transactional, w, front), steps[|steps| - 1]);
    }
  }

  function NewKey(feed: seq<Json>): KeyState {
    KeyState(feed, Blank, multiset{}, multiset{}, multiset(feed), multiset{})
  }

  /** Nothing has been fetched yet. */
  ghost predicate Initial(sources: map<string, Source>, w: World) {
    && w.Keys == sources.Keys
    && forall k :: k in w ==>
         AllReadable(sources[k].spec, w[k].feed) && Descending(sources[k].spec, w[k].feed) && w[k] == NewKey(w[k].feed)
  }

  lemma {:induction false} AllFreshAtFirst(spec: Spec, feed: seq<Json>)
    ensures FreshItems(spec, None, feed) == feed
    decreases |feed|
  {
    if feed != [] {
      AllFreshAtFirst(spec, feed[..|feed| - 1]);
    }
  }

  lemma NewKeyHolds(spec: Spec, feed: seq<Json>)
    requires AllReadable(spec, feed) && Descending(spec, feed)
    ensures KeyInv(spec, NewKey(feed))
  {
    AllFreshAtFirst(spec, feed);
    var all: multiset<Json> := multiset(feed);
    assert multiset{} + multiset{} + all == all && all + multiset{} <= all;
  }

  lemma InitialHolds(sources: map<string, Source>, w: World)
    requires Initial(sources, w)
    ensures Inv(sources, w)
  {
    forall k | k in w ensures KeyInv(sources[k].spec, w[k]) {
      NewKeyHolds(sources[k].spec, w[k].feed);
    }
  }

  lemma NothingLost(feed: multiset<Json>, lost: multiset<Json>)
    requires feed + lost <= feed
    ensures lost == multiset{}
  {
    forall x ensures lost[x] == 0 {
      assert (feed + lost)[x] <= feed[x];
    }
  }

  lemma AllThatArrived(delivered: multiset<Json>, lost: multiset<Json>, ahead: multiset<Json>, feed: multiset<Json>)
    requires delivered + lost + ahead == feed && feed + lost <= feed
    ensures delivered + ahead == feed
  {
    NothingLost(feed, lost);
    assert delivered + lost == delivered;
  }

  /** Exactly once: after any run, every item that ever arrived in a feed has been in the plan of
      exactly one cycle that saved the key's checkpoint, or is in none because it is still past the
      checkpoint or left the feed while it was. As long as nothing leaves, that is the whole feed. */
  lemma ExactlyOnce(sources: map<string, Source>, transactional: bool, w: World, steps: seq<Step>, key: string)
    requires Initial(sources, w) && ValidRun(sources, transactional, w, steps) && key in sources
    ensures var st := Run(sources, transactional, w, steps)[key];
            var ahead := multiset(FreshItems(sources[key].spec, CheckpointOf(st.stored), st.feed));
            && st.delivered + st.lost + ahead == st.arrived
            && (st.arrived == multiset(st.feed) ==> st.delivered + ahead == multiset(st.feed))
  {
    InitialHolds(sources, w);
    RunKeepsInv(sources, transactional, w, steps);
    var st := Run(sources, transactional, w, steps)[key];
    if st.arrived == multiset(st.feed) {
      var ahead := multiset(FreshItems(sources[key].spec, CheckpointOf(st.stored), st.feed));
      AllThatArrived(st.delivered, st.lost, ahead, multiset(st.feed));
    }
  }

  lemma {:induction false} KeepsMembers(order: seq<string>, keys: set<string>)
    ensures forall k :: k in Keep(order, keys) <==> k in order && k in keys
    decreases |order|
  {
    if order != [] {
      KeepsMembers(order[..|order| - 1], keys);
    }
  }

  ghost predicate WasSaved(sources: map<string, Source>, transactional: bool, w: World, step: Step, key: string)
    requires ValidStep(sources, w, step) && step.Cycle?
  {
    key in SavedKeys(transactional, step.fate, PendingKeys(sources, w, step.responses, step.order))
  }

  lemma SavedAmongPending(transactional: bool, fate: Fate, pending: seq<string>, key: string)
    ensures key in SavedKeys(transactional, fate, pending) ==> key in pending && (transactional ==> fate.Succeeds?)
    ensures fate.Succeeds? && key in pending ==> key in SavedKeys(transactional, fate, pending)
  {
  }

  /** A cycle as one key sees it. */
  lemma CycleOfKey(sources: map<string, Source>, transactional: bool, w: World, step: Step, key: string)
    requires ValidStep(sources, w, step) && step.Cycle? && key in w
    ensures Next(sources, transactional, w, step)[key] == CycleKey(sources[key], w[key], step.responses[key],
              WasSaved(sources, transactional, w, step, key), step.fate.Succeeds?)
    ensures WasSaved(sources, transactional, w, step, key) ==> HasPending(sources[key], w[key], step.responses[key])
    ensures step.fate.Succeeds? && HasPending(sources[key], w[key], step.responses[key]) ==>
              WasSaved(sources, transactional, w, step, key)
    ensures transactional && WasSaved(sources, transactional, w, step, key) ==> step.fate.Succeeds?
  {
    KeepsMembers(step.order, set k | k in w && HasPending(sources[k], w[k], step.responses[k]));
    SavedAmongPending(transactional, step.fate, PendingKeys(sources, w, step.responses, step.order), key);
  }

  lemma FetchedAndSavedDeliversAll(src: Source, st: KeyState, responses: seq<Response>, saved: bool, succeeded: bool)
    requires KeyInv(src.spec, st) && Honest(src, st, responses) && OutcomeFor(src, st, responses).Fetched?
    requires HasPending(src, st, responses) ==> saved
    ensures var st' := CycleKey(src, st, responses, saved, succeeded);
            st'.delivered + st.lost == st.arrived && FreshItems(src.spec, CheckpointOf(st'.stored), st.feed) == []
  {
    var cp := CheckpointOf(st.stored);
    HonestOutcome(src, st, responses);
    NothingFreshAfter(src.spec, cp, st.feed, st.feed);
    if HasPending(src, st, responses) {
      SavedCheckpointReads(src.spec, cp, st.feed);
    }
  }

  /** A cycle that succeeds leaves no item in the feed of a key it could fetch undelivered. */
  lemma SuccessDeliversEverything(sources: map<string, Source>, transactional: bool, w: World, steps: seq<Step>,
                                  step: Step, key: string)
    requires Initial(sources, w) && ValidRun(sources, transactional, w, steps) && key in sources
    requires ValidStep(sources, Run(sources, transactional, w, steps), step) && step.Cycle? && step.fate.Succeeds?
    requires OutcomeFor(sources[key], Run(sources, transactional, w, steps)[key], step.responses[key]).Fetched?
    ensures var st := Next(sources, transactional, Run(sources, transactional, w, steps), step)[key];
            st.delivered + st.lost == st.arrived &&
            FreshItems(sources[key].spec, CheckpointOf(st.stored), st.feed) == []
  {
    var before := Run(sources, transactional, w, steps);
    InitialHolds(sources, w);
    RunKeepsInv(sources, transactional, w, steps);
    CycleOfKey(sources, transactional, before, step, key);
    FetchedAndSavedDeliversAll(sources[key], before[key], step.responses[key],
                               WasSaved(sources, transactional, before, step, key), true);
  }

  lemma OneStepRun(sources: map<string, Source>, transactional: bool, w: World, steps: seq<Step>)
    requires |steps| == 1 && ValidStep(sources, w, steps[0])
    ensures ValidRun(sources, transactional, w, steps)
    ensures Run(sources, transactional, w, steps) == Next(sources, transactional, w, steps[0])
  {
    NoStepsRun(sources, transactional, w, steps[..|steps| - 1]);
  }

  lemma NoStepsRun(sources: map<string, Source>, transactional: bool, w: World, steps: seq<Step>)
    requires steps == []
    ensures ValidRun(sources, transactional, w, steps) && Run(sources, transactional, w, steps) == w
  {
  }

  function NewWorld(keys: set<string>, feed: seq<Json>): World {
    map k | k in keys :: NewKey(feed)
  }

  function AllFrom(keys: set<string>, src: Source): map<string, Source> {
    map k | k in keys :: src
  }

  /** A cycle in which the API answers for every key with one page that holds the whole feed. */
  function WholeFeedCycle(src: Source, order: seq<string>, feed: seq<Json>, fate: Fate): Step {
    Cycle(map k | k in order :: WholeFeed(src.spec, feed), order, fate)
  }

  ghost predicate FeedFits(src: Source, feed: seq<Json>) {
    && WellConfigured(src.spec, src.pagination) && feed != []
    && AllReadable(src.spec, feed) && Descending(src.spec, feed)
  }

  lemma NewKeyFetches(src: Source, feed: seq<Json>)
    requires FeedFits(src, feed)
    ensures Honest(src, NewKey(feed), WholeFeed(src.spec, feed)) &&
            HasPending(src, NewKey(feed), WholeFeed(src.spec, feed))
    ensures PlanItems(src, NewKey(feed), WholeFeed(src.spec, feed)) == multiset(feed)
  {
    AnyFeedCanBeServed(src.spec, None, src.pagination, feed);
    PageCutIndependence(src.spec, None, Blank, src.pagination, WholeFeed(src.spec, feed), feed);
    AllFreshAtFirst(src.spec, feed);
  }

  lemma {:induction false} KeepsAll(order: seq<string>, keys: set<string>)
    requires forall k :: k in order ==> k in keys
    ensures Keep(order, keys) == order
    decreases |order|
  {
    if order != [] {
      KeepsAll(order[..|order| - 1], keys);
    }
  }

  ghost function KeySet(order: seq<string>): set<string> {
    set k | k in order
  }

  /** The whole feed is pending for every key, and the cycle can be taken from a new world. */
  lemma WholeFeedCycleIsValid(src: Source, order: seq<string>, feed: seq<Json>, fate: Fate)
    requires FeedFits(src, feed) && Distinct(order) && (fate.SaveFails? ==> fate.n < |order|)
    ensures var sources, w, step :=
                AllFrom(KeySet(order), src), NewWorld(KeySet(order), feed), WholeFeedCycle(src, order, feed, fate);
            && Initial(sources, w) && w.Keys == sources.Keys == step.responses.Keys
            && PendingKeys(sources, w, step.responses, order) == order && ValidStep(sources, w, step)
  {
    NewKeyFetches(src, feed);
    KeepsAll(order, KeySet(order));
    var sources, w, step :=
        AllFrom(KeySet(order), src), NewWorld(KeySet(order), feed), WholeFeedCycle(src, order, feed, fate);
    assert (set k | k in w && HasPending(sources[k], w[k], step.responses[k])) == KeySet(order);
  }

  lemma NewKeyDelivers(src: Source, feed: seq<Json>, saved: bool, succeeded: bool)
    requires FeedFits(src, feed)
    ensures var st := CycleKey(src, NewKey(feed), WholeFeed(src.spec, feed), saved, succeeded);
            && st.delivered == (if saved then multiset(feed) else multiset{})
            && st.confirmed == (if succeeded then multiset(feed) else multiset{})
  {
    NewKeyFetches(src, feed);
    var all: multiset<Json> := multiset(feed);
    assert multiset{} + all == all;
  }

  /** The assumptions on runs can be met for every feed and every set of keys: here by one
      successful cycle, which delivers all of it for each. */
  lemma EveryFeedCanBeSynced(src: Source, order: seq<string>, feed: seq<Json>, key: string)
    requires FeedFits(src, feed) && Distinct(order) && key in order
    ensures var sources, w := AllFrom(KeySet(order), src), NewWorld(KeySet(order), feed);
            var steps := [WholeFeedCycle(src, order, feed, Succeeds)];
            && Initial(sources, w) && ValidRun(sources, true, w, steps)
            && Run(sources, true, w, steps)[key].delivered == multiset(feed)
  {
    var sources, w := AllFrom(KeySet(order), src), NewWorld(KeySet(order), feed);
    var step := WholeFeedCycle(src, order, feed, Succeeds);
    WholeFeedCycleIsValid(src, order, feed, Succeeds);
    OneStepRun(sources, true, w, [step]);
    NewKeyDelivers(src, feed, true, true);
  }

  // ---- the saved watermark never decreases ----

  predicate NotBehind(spec: Spec, a: Option<CheckpointState>, b: Option<CheckpointState>) {
    a.None? || (b.Some? && Cmp(spec, a.value.mark, b.value.mark) <= 0)
  }

  lemma CycleNeverRegresses(src: Source, st: KeyState, responses: seq<Response>, saved: bool, succeeded: bool)
    requires KeyInv(src.spec, st) && Honest(src, st, responses)
    ensures NotBehind(src.spec, CheckpointOf(st.stored),
                      CheckpointOf(CycleKey(src, st, responses, saved, succeeded).stored))
  {
    var cp := CheckpointOf(st.stored);
    HonestOutcome(src, st, responses);
    if cp.Some? {
      CmpOrders(src.spec, cp.value.mark, cp.value.mark, cp.value.mark);
      if saved && HasPending(src, st, responses) {
        SavedCheckpointReads(src.spec, cp, st.feed);
        assert ReadableItem(src.spec, st.feed[0]);
        CmpOrders(src.spec, cp.value.mark, Mark(src.spec, st.feed[0]), cp.value.mark);
      }
    }
  }

  lemma StepNeverRegresses(sources: map<string, Source>, transactional: bool, w: World, step: Step, key: string)
    requires Inv(sources, w) && ValidStep(sources, w, step) && key in sources
    ensures NotBehind(sources[key].spec, CheckpointOf(w[key].stored),
                      CheckpointOf(Next(sources, transactional, w, step)[key].stored))
  {
    assert KeyInv(sources[key].spec, w[key]);
    match step
    case Change(_, _, _, _) => NotBehindReflexive(sources[key].spec, CheckpointOf(w[key].stored));
    case Cycle(responses, order, fate) =>
      CycleOfKey(sources, transactional, w, step, key);
      CycleNeverRegresses(sources[key], w[key], responses[key], WasSaved(sources, transactional, w, step, key),
                          fate.Succeeds?);
  }

  /** Over any run from any consistent state, failures included, no saved watermark goes down. */
  lemma {:induction false} WatermarksNeverRegress(sources: map<string, Source>, transactional: bool, w: World,
                                                  steps: seq<Step>, key: string)
    requires Inv(sources, w) && ValidRun(sources, transactional, w, steps) && key in sources
    ensures NotBehind(sources[key].spec, CheckpointOf(w[key].stored),
                      CheckpointOf(Run(sources, transactional, w, steps)[key].stored))
    decreases |steps|
  {
    var spec := sources[key].spec;
    assert KeyInv(spec, w[key]);
    if steps == [] {
      NotBehindReflexive(spec, CheckpointOf(w[key].stored));
    } else {
      var front, step := steps[..|steps| - 1], steps[|steps| - 1];
      var before := Run(sources, transactional, w, front);
      WatermarksNeverRegress(sources, transactional, w, front, key);
      RunKeepsInv(sources, transactional, w, front);
      StepNeverRegresses(sources, transactional, before, step, key);
      StepKeepsInv(sources, transactional, before, step);
      var after := Next(sources, transactional, before, step);
      assert KeyInv(spec, before[key]) && KeyInv(spec, after[key]);
      NotBehindTransitive(spec, CheckpointOf(w[key].stored), CheckpointOf(before[key].stored),
                          CheckpointOf(after[key].stored));
    }
  }

  lemma NotBehindReflexive(spec: Spec, a: Option<CheckpointState>)
    requires Usable(spec, a)
    ensures NotBehind(spec, a, a)
  {
    if a.Some? {
      CmpOrders(spec, a.value.mark, a.value.mark, a.value.mark);
    }
  }

  lemma NotBehindTransitive(spec: Spec, a: Option<CheckpointState>, b: Option<CheckpointState>,
                            c: Option<CheckpointState>)
    requires Usable(spec, a) && Usable(spec, b) && Usable(spec, c)
    requires NotBehind(spec, a, b) && NotBehind(spec, b, c)
    ensures NotBehind(spec, a, c)
  {
    if a.Some? {
      CmpOrders(spec, a.value.mark, b.value.mark, c.value.mark);
    }
  }

  // ---- which cycles deliver: saving in one transaction, or one by one ----

  lemma AccountsOfKey(src: Source, st: KeyState, responses: seq<Response>, saved: bool, succeeded: bool)
    requires KeyInv(src.spec, st) && Honest(src, st, responses) && st.confirmed == st.delivered
    requires saved ==> HasPending(src, st, responses)
    requires succeeded && HasPending(src, st, responses) ==> saved
    ensures var st' := CycleKey(src, st, responses, saved, succeeded);
            st'.confirmed == st'.delivered <==>
              succeeded || !saved || FreshItems(src.spec, CheckpointOf(st.stored), st.feed) == []
  {
    HonestOutcome(src, st, responses);
    NoPendingNoItems(src, st, responses);
    var plan := PlanItems(src, st, responses);
    assert |st.delivered + plan| == |st.delivered| + |plan|;
  }

  lemma TransactionalStepKeepsAccounts(sources: map<string, Source>, w: World, step: Step, key: string)
    requires Inv(sources, w) && ValidStep(sources, w, step)
    requires key in w && w[key].confirmed == w[key].delivered
    ensures Next(sources, true, w, step)[key].confirmed == Next(sources, true, w, step)[key].delivered
  {
    if step.Cycle? {
      CycleOfKey(sources, true, w, step, key);
      AccountsOfKey(sources[key], w[key], step.responses[key], WasSaved(sources, true, w, step, key),
                    step.fate.Succeeds?);
    }
  }

  /** With transactional saving a cycle that fails anywhere delivers nothing, so "exactly once"
      holds of the fully successful cycles. */
  lemma {:induction false} TransactionalDeliversOnSuccessOnly(sources: map<string, Source>, w: World, steps: seq<Step>,
                                                              key: string)
    requires Initial(sources, w) && ValidRun(sources, true, w, steps) && key in sources
    ensures Run(sources, true, w, steps)[key].confirmed == Run(sources, true, w, steps)[key].delivered
    decreases |steps|
  {
    if steps != [] {
      var front := steps[..|steps| - 1];
      TransactionalDeliversOnSuccessOnly(sources, w, front, key);
      InitialHolds(sources, w);
      RunKeepsInv(sources, true, w, front);
      TransactionalStepKeepsAccounts(sources, Run(sources, true, w, front), steps[|steps| - 1], key);
    }
  }

  /** Saving one by one, a cycle keeps the two accounts of a key together exactly when it succeeds,
      or the key was not saved before the failure, or the key had nothing new. */
  lemma OneByOneGap(sources: map<string, Source>, w: World, step: Step, key: string)
    requires Inv(sources, w) && ValidStep(sources, w, step) && step.Cycle?
    requires key in w && w[key].confirmed == w[key].delivered
    ensures var after := Next(sources, false, w, step)[key];
            after.confirmed == after.delivered <==>
              || step.fate.Succeeds? || !WasSaved(sources, false, w, step, key)
              || FreshItems(sources[key].spec, CheckpointOf(w[key].stored), w[key].feed) == []
  {
    CycleOfKey(sources, false, w, step, key);
    AccountsOfKey(sources[key], w[key], step.responses[key], WasSaved(sources, false, w, step, key),
                  step.fate.Succeeds?);
  }

  /** The gap occurs: with two keys and a save that fails at the second, the first key's items have
      been delivered and belong to no successful cycle. */
  lemma PartialSaveOpensTheGap(src: Source, feed: seq<Json>, a: string, b: string)
    requires FeedFits(src, feed) && a != b
    ensures var sources, w := AllFrom(KeySet([a, b]), src), NewWorld(KeySet([a, b]), feed);
            var step := WholeFeedCycle(src, [a, b], feed, SaveFails(1));
            && Initial(sources, w) && ValidStep(sources, w, step) && a in w && b in w
            && var after := Next(sources, false, w, step);
               && after[a].delivered == multiset(feed) && after[a].confirmed == multiset{}
               && after[b].delivered == after[b].confirmed == multiset{}
  {
    WholeFeedCycleIsValid(src, [a, b], feed, SaveFails(1));
    NewKeyDelivers(src, feed, true, false);
    NewKeyDelivers(src, feed, false, false);
  }
}
