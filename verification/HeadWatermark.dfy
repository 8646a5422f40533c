/** Head-watermark incremental fetching: pages are read from the head of a feed, filtered against
    the saved checkpoint, and the next checkpoint is collected on the way. */
module HeadWatermark {
  import opened Common
  import opened Watermarks

  /** A compiled `x-incremental` block. `clock` is `time.Parse`, `marshal` is `json.Marshal`
      of the list of key values, `format` is `fmt.Sprintf("%v", _)`. */
  datatype Spec = Spec(
    itemsPath: seq<string>, itemsPathIsRoot: bool,
    watermarkPath: seq<string>, kind: WatermarkType, keyPaths: seq<seq<string>>,
    clock: Clock, marshal: seq<Json> -> string, format: Json -> string)

  // ---- one item ----

  datatype Reading = Reading(mark: Json, key: string)

  function KeyValues(item: Json, keyPaths: seq<seq<string>>): seq<Json> {
    seq(|keyPaths|, i requires 0 <= i < |keyPaths| => ResolveByPath(item, keyPaths[i]))
  }

  function ReadItem(spec: Spec, raw: Json): Result<Reading> {
    if !raw.JObject? then Failed
    else
      var mark := ResolveByPath(raw, spec.watermarkPath);
      var keys := KeyValues(raw, spec.keyPaths);
      if mark == JNull || JNull in keys then Failed
      else Ok(Reading(mark, spec.marshal(keys)))
  }

  /** What a cycle has seen so far: nothing, or the highest watermark and the keys at it. */
  datatype Head = Unseen | Seen(mark: Json, keys: set<string>)

  function Observe(spec: Spec, head: Head, r: Reading): Result<Head> {
    match head
    case Unseen => Ok(Seen(r.mark, {r.key}))
    case Seen(max, keys) =>
      match CompareWatermarkValues(spec.kind, spec.clock, r.mark, max)
      case Failed => Failed
      case Ok(c) => Ok(if c > 0 then Seen(r.mark, {r.key}) else if c == 0 then Seen(max, keys + {r.key}) else head)
  }

  datatype Verdict = Verdict(included: bool, older: bool)

  function Judge(spec: Spec, checkpoint: Option<CheckpointState>, r: Reading): Result<Verdict> {
    match checkpoint
    case None => Ok(Verdict(true, false))
    case Some(cp) =>
      if cp.kind != spec.kind then Failed
      else
        match CompareWatermarkValues(spec.kind, spec.clock, r.mark, cp.mark)
        case Failed => Failed
        case Ok(c) =>
          if c > 0 then Ok(Verdict(true, false))
          else if c == 0 then Ok(Verdict(r.key !in cp.boundaryKeys, false))
          else Ok(Verdict(false, true))
  }

  // ---- one page ----

  datatype Scan = Scan(head: Head, included: seq<Json>, allOlder: bool)

  function ScanStep(spec: Spec, checkpoint: Option<CheckpointState>, s: Scan, raw: Json): Result<Scan> {
    match ReadItem(spec, raw)
    case Failed => Failed
    case Ok(r) =>
      match (Observe(spec, s.head, r), Judge(spec, checkpoint, r))
      case (Ok(head), Ok(v)) =>
        Ok(Scan(head, if v.included then s.included + [raw] else s.included, s.allOlder && v.older))
      case _ => Failed
  }

  function ScanItems(spec: Spec, checkpoint: Option<CheckpointState>, start: Scan, items: seq<Json>): Result<Scan> {
    if items == [] then Ok(start)
    else
      match ScanItems(spec, checkpoint, start, items[..|items| - 1])
      case Failed => Failed
      case Ok(s) => ScanStep(spec, checkpoint, s, items[|items| - 1])
  }

  function ItemsValue(spec: Spec, payload: Json): Json {
    if spec.itemsPathIsRoot then payload else ResolveByPath(payload, spec.itemsPath)
  }

  /** The items, and whether they were a single object rather than a list. */
  function ListItems(value: Json): Result<(seq<Json>, bool)> {
    match value
    case JNull => Ok(([], false))
    case JArray(items) => Ok((items, false))
    case JObject(_) => Ok(([value], true))
    case _ => Failed
  }

  function WrapItems(included: seq<Json>, wasObject: bool): Json {
    if !wasObject then JArray(included) else if included == [] then JNull else included[0]
  }

  function SetItems(spec: Spec, payload: Json, included: seq<Json>, wasObject: bool): Result<Json> {
    if spec.itemsPathIsRoot then Ok(WrapItems(included, wasObject))
    else SetAtPath(payload, spec.itemsPath, WrapItems(included, wasObject))
  }

  datatype PageResult = PageResult(filteredPayload: Json, rawItemCount: nat, stopAfterPage: bool)

  function FilterPage(spec: Spec, checkpoint: Option<CheckpointState>, head: Head,
                      payload: Json): Result<(PageResult, Head)> {
    match ListItems(ItemsValue(spec, payload))
    case Failed => Failed
    case Ok((items, wasObject)) =>
      match ScanItems(spec, checkpoint, Scan(head, [], checkpoint.Some? && items != []), items)
      case Failed => Failed
      case Ok(s) =>
        match SetItems(spec, payload, s.included, wasObject)
        case Failed => Failed
        case Ok(filtered) => Ok((PageResult(filtered, |items|, s.allOlder), s.head))
  }

  /** The mutable record of one fetch (`headWatermarkCycleState`). */
  class CycleState {
    var observed: bool
    var maxWatermark: Json
    var boundaryKeys: set<string>

    constructor ()
      ensures Head() == Unseen
    {
      observed, maxWatermark, boundaryKeys := false, JNull, {};
    }

    function Head(): Head
      reads this
    {
      if observed then Seen(maxWatermark, boundaryKeys) else Unseen
    }

    method Update(spec: Spec, r: Reading) returns (ok: bool)
      modifies this
      ensures ok <==> Observe(spec, old(Head()), r).Ok?
      ensures Head() == if ok then Observe(spec, old(Head()), r).value else old(Head())
    {
      if !observed {
        observed, maxWatermark, boundaryKeys := true, r.mark, {r.key};
        return true;
      }
      var cmp := CompareWatermarkValues(spec.kind, spec.clock, r.mark, maxWatermark);
      if cmp.Failed? {
        return false;
      }
      if cmp.value > 0 {
        maxWatermark, boundaryKeys := r.mark, {r.key};
      } else if cmp.value == 0 {
        boundaryKeys := boundaryKeys + {r.key};
      }
      return true;
    }
  }

  /** The effect of one item on the page so far. */
  method ScanItem(spec: Spec, checkpoint: Option<CheckpointState>, raw: Json, filtered: seq<Json>, allOlder: bool,
                  cycle: CycleState)
    returns (ok: bool, filtered': seq<Json>, allOlder': bool)
    modifies cycle
    ensures ok <==> ScanStep(spec, checkpoint, Scan(old(cycle.Head()), filtered, allOlder), raw).Ok?
    ensures ok ==> ScanStep(spec, checkpoint, Scan(old(cycle.Head()), filtered, allOlder), raw).value ==
                   Scan(cycle.Head(), filtered', allOlder')
  {
    filtered', allOlder' := filtered, allOlder;
    var reading := ReadItem(spec, raw);
    if reading.Failed? {
      return false, filtered', allOlder';
    }
    ok := cycle.Update(spec, reading.value);
    if !ok {
      return false, filtered', allOlder';
    }
    var verdict := Judge(spec, checkpoint, reading.value);
    if verdict.Failed? {
      return false, filtered', allOlder';
    }
    allOlder' := allOlder && verdict.value.older;
    if verdict.value.included {
      filtered' := filtered + [raw];
    }
  }

  method ScanPage(spec: Spec, checkpoint: Option<CheckpointState>, items: seq<Json>, cycle: CycleState)
    returns (ok: bool, filtered: seq<Json>, allOlder: bool)
    modifies cycle
    ensures var r := ScanItems(spec, checkpoint, Scan(old(cycle.Head()), [], checkpoint.Some? && items != []), items);
            if ok then r == Ok(Scan(cycle.Head(), filtered, allOlder)) else r.Failed?
  {
    filtered := [];
    allOlder := checkpoint.Some? && |items| > 0;
    ghost var start := Scan(cycle.Head(), [], allOlder);
    var i := 0;
    while i < |items|
      invariant 0 <= i <= |items|
      invariant ScanItems(spec, checkpoint, start, items[..i]) == Ok(Scan(cycle.Head(), filtered, allOlder))
    {
      assert items[..i + 1][..i] == items[..i];
      ScanFailsForward(spec, checkpoint, start, items, i + 1);
      ok, filtered, allOlder := ScanItem(spec, checkpoint, items[i], filtered, allOlder, cycle);
      if !ok {
        return;
      }
      i := i + 1;
    }
    assert items[..i] == items;
    ok := true;
  }

  method FilterHeadWatermarkPage(payload: Json, spec: Spec, checkpoint: Option<CheckpointState>, cycle: CycleState)
    returns (r: Result<PageResult>)
    modifies cycle
    ensures r.Ok? <==> FilterPage(spec, checkpoint, old(cycle.Head()), payload).Ok?
    ensures r.Ok? ==> FilterPage(spec, checkpoint, old(cycle.Head()), payload).value == (r.value, cycle.Head())
  {
    var listed := ListItems(ItemsValue(spec, payload));
    if listed.Failed? {
      return Failed;
    }
    var (items, wasObject) := listed.value;
    var ok, filtered, allOlder := ScanPage(spec, checkpoint, items, cycle);
    if !ok {
      return Failed;
    }
    var root := SetItems(spec, payload, filtered, wasObject);
    if root.Failed? {
      return Failed;
    }
    return Ok(PageResult(root.value, |items|, allOlder));
  }

  lemma {:induction false} ScanFailsForward(spec: Spec, checkpoint: Option<CheckpointState>, start: Scan,
                                            items: seq<Json>, n: nat)
    requires n <= |items|
    ensures ScanItems(spec, checkpoint, start, items[..n]).Failed? ==> ScanItems(spec, checkpoint, start, items).Failed?
    decreases |items| - n
  {
    if n == |items| {
      assert items[..n] == items;
    } else {
      assert items[..n + 1][..n] == items[..n];
      ScanFailsForward(spec, checkpoint, start, items, n + 1);
    }
  }

  // ---- the fetch loop ----

  datatype Pagination = Cursor(path: seq<string>) | Offset(start: Json, increment: Json)

  datatype Move = StopHere | MoveTo(value: Json) | Broken

  predicate IsBlankCursor(v: Json) {
    v == JNull || (v.JString? && TrimSpace(v.text) == "")
  }

  function Advance(spec: Spec, pagination: Pagination, current: Option<Json>, payload: Json): Move {
    match pagination
    case Cursor(path) =>
      var next := ResolveByPath(payload, path);
      if IsBlankCursor(next) then StopHere
      else if current.Some? && spec.format(next) == spec.format(current.value) then StopHere
      else MoveTo(next)
    case Offset(_, increment) =>
      if current.Some? && current.value.JNumber? && increment.JNumber?
      then MoveTo(JNumber(current.value.number + increment.number))
      else Broken
  }

  /** The answer to one request; `NoPage` is a failed request or a body that is not JSON. */
  datatype Response = NoPage | Page(payload: Json)

  /** `Abandoned`: no rows and no checkpoint. The requests list the pagination value each
      request carried. */
  datatype Outcome =
    | Abandoned(requests: seq<Option<Json>>)
    | Fetched(payloads: seq<Json>, pending: Option<CheckpointState>, requests: seq<Option<Json>>)

  function Conclude(spec: Spec, checkpoint: Option<CheckpointState>, head: Head, payloads: seq<Json>,
                    requests: seq<Option<Json>>): Outcome {
    if head.Unseen? then Fetched(payloads, None, requests)
    else if checkpoint.None? then Fetched(payloads, Some(CheckpointState(spec.kind, head.mark, head.keys)), requests)
    else if spec.kind != checkpoint.value.kind then Fetched(payloads, None, requests)
    else
      match CompareWatermarkValues(spec.kind, spec.clock, head.mark, checkpoint.value.mark)
      case Failed => Abandoned(requests)
      case Ok(c) =>
        Fetched(payloads, if c < 0 then None else Some(CheckpointState(spec.kind, head.mark, head.keys)), requests)
  }

  /** Where the loop stands before a request: the pagination value to send, what has been seen,
      the filtered payloads and the requests so far. */
  datatype Progress = Progress(current: Option<Json>, head: Head, payloads: seq<Json>, requests: seq<Option<Json>>)

  datatype Round = Finished(outcome: Outcome) | Continue(next: Progress)

  /** The decisions after a page was filtered. */
  function AfterPage(spec: Spec, checkpoint: Option<CheckpointState>, pagination: Pagination, p: Progress,
                     payload: Json, page: PageResult, head: Head): Round {
    var payloads, requests := p.payloads + [page.filteredPayload], p.requests + [p.current];
    if page.rawItemCount == 0 || page.stopAfterPage
    then Finished(Conclude(spec, checkpoint, head, payloads, requests))
    else
      match Advance(spec, pagination, p.current, payload)
      case StopHere => Finished(Conclude(spec, checkpoint, head, payloads, requests))
      case Broken => Finished(Abandoned(requests))
      case MoveTo(next) => Continue(Progress(Some(next), head, payloads, requests))
  }

  /** One turn of the loop. */
  function Turn(spec: Spec, checkpoint: Option<CheckpointState>, pagination: Pagination, p: Progress,
                response: Response): Round {
    if response.NoPage? then Finished(Abandoned(p.requests + [p.current]))
    else
      match FilterPage(spec, checkpoint, p.head, response.payload)
      case Failed => Finished(Abandoned(p.requests + [p.current]))
      case Ok((page, head)) => AfterPage(spec, checkpoint, pagination, p, response.payload, page, head)
  }

  /** The answer to the `i`-th request; a request without one has failed. */
  function ResponseAt(responses: seq<Response>, i: nat): Response {
    if i < |responses| then responses[i] else NoPage
  }

  /** The rest of the loop once the `i`-th request has ended in `round`. */
  function FetchOn(spec: Spec, checkpoint: Option<CheckpointState>, pagination: Pagination, round: Round,
                   responses: seq<Response>, i: nat): Outcome
    decreases |responses| - i
  {
    match round
    case Finished(outcome) => outcome
    case Continue(next) =>
      if i >= |responses| then Abandoned(next.requests)
      else FetchOn(spec, checkpoint, pagination, Turn(spec, checkpoint, pagination, next, ResponseAt(responses, i + 1)),
                   responses, i + 1)
  }

  /** The loop from the `i`-th request on. */
  function FetchPages(spec: Spec, checkpoint: Option<CheckpointState>, pagination: Pagination, p: Progress,
                      responses: seq<Response>, i: nat): Outcome {
    FetchOn(spec, checkpoint, pagination, Turn(spec, checkpoint, pagination, p, ResponseAt(responses, i)), responses, i)
  }

  function InitialValue(pagination: Pagination): Option<Json> {
    match pagination
    case Cursor(_) => None
    case Offset(start, _) => Some(start)
  }

  function Begin(pagination: Pagination): Progress {
    Progress(InitialValue(pagination), Unseen, [], [])
  }

  /** A whole fetch, from the stored checkpoint text to rows and the pending checkpoint. */
  function FetchCycle(spec: Spec, stored: Stored, pagination: Pagination, responses: seq<Response>): Outcome {
    match ParseHeadWatermarkCheckpoint(stored)
    case Failed => Abandoned([])
    case Ok(checkpoint) => FetchPages(spec, checkpoint, pagination, Begin(pagination), responses, 0)
  }

  method TakeTurn(spec: Spec, checkpoint: Option<CheckpointState>, pagination: Pagination, p: Progress,
                  response: Response, cycle: CycleState)
    returns (r: Round)
    requires cycle.Head() == p.head
    modifies cycle
    ensures r == Turn(spec, checkpoint, pagination, p, response)
    ensures r.Continue? ==> cycle.Head() == r.next.head
  {
    var requests := p.requests + [p.current];
    if response.NoPage? {
      return Finished(Abandoned(requests));
    }
    var page := FilterHeadWatermarkPage(response.payload, spec, checkpoint, cycle);
    if page.Failed? {
      return Finished(Abandoned(requests));
    }
    var payloads := p.payloads + [page.value.filteredPayload];
    if page.value.rawItemCount == 0 || page.value.stopAfterPage {
      return Finished(Conclude(spec, checkpoint, cycle.Head(), payloads, requests));
    }
    match Advance(spec, pagination, p.current, response.payload)
    case StopHere => r := Finished(Conclude(spec, checkpoint, cycle.Head(), payloads, requests));
    case Broken => r := Finished(Abandoned(requests));
    case MoveTo(next) => r := Continue(Progress(Some(next), cycle.Head(), payloads, requests));
  }

  method FetchHeadWatermark(spec: Spec, stored: Stored, pagination: Pagination, responses: seq<Response>)
    returns (r: Outcome)
    ensures r == FetchCycle(spec, stored, pagination, responses)
  {
    var parsed := ParseHeadWatermarkCheckpoint(stored);
    if parsed.Failed? {
      return Abandoned([]);
    }
    var cycle := new CycleState();
    var p := Begin(pagination);
    var i := 0;
    while true
      invariant 0 <= i <= |responses| && cycle.Head() == p.head
      invariant FetchPages(spec, parsed.value, pagination, p, responses, i) ==
                FetchCycle(spec, stored, pagination, responses)
      decreases |responses| - i
    {
      var round := TakeTurn(spec, parsed.value, pagination, p, ResponseAt(responses, i), cycle);
      if round.Finished? {
        return round.outcome;
      }
      p := round.next;
      i := i + 1;
    }
  }
}
