/** Which requests a head-watermark fetch sends, and where it ends, whatever the API answers. */
module PageRequests {
  import opened Common
  import opened Watermarks
  import opened HeadWatermark
  import opened PageCuts
  import SyncRuns

  predicate IsPage(responses: seq<Response>, i: nat) {
    i < |responses| && responses[i].Page?
  }

  /** A page with items that do not all lie before the checkpoint and, under cursor paging, with a
      cursor to go on with. */
  ghost predicate CallsForMore(spec: Spec, checkpoint: Option<CheckpointState>, pagination: Pagination,
                               current: Option<Json>, payload: Json) {
    && ItemsIn(spec, payload) != []
    && !(checkpoint.Some? && AllOlder(spec, checkpoint, ItemsIn(spec, payload)))
    && (pagination.Cursor? ==> OffersCursor(spec, pagination.path, current, payload))
  }

  /** The value of the request after a page: the cursor the page offers, or the next offset. */
  predicate AsksFor(pagination: Pagination, current: Option<Json>, payload: Json, next: Option<Json>) {
    match pagination
    case Cursor(path) => next == Some(ResolveByPath(payload, path))
    case Offset(_, increment) =>
      && current.Some? && current.value.JNumber? && increment.JNumber?
      && next == Some(JNumber(current.value.number + increment.number))
  }

  /** The page holds items, and each is an object with a watermark and a value for every key. */
  predicate ProperPage(spec: Spec, payload: Json) {
    && PageHolds(spec, payload, ItemsIn(spec, payload))
    && forall k :: 0 <= k < |ItemsIn(spec, payload)| ==> HasMarkAndKeys(spec, ItemsIn(spec, payload)[k])
  }

  /** The request after the `i`-th answers a page that calls for it, and asks for what it offers. */
  ghost predicate FollowsPage(spec: Spec, checkpoint: Option<CheckpointState>, pagination: Pagination,
                              responses: seq<Response>, requests: seq<Option<Json>>, i: nat)
    requires i + 1 < |requests|
  {
    && IsPage(responses, i) && ProperPage(spec, responses[i].payload)
    && CallsForMore(spec, checkpoint, pagination, requests[i], responses[i].payload)
    && AsksFor(pagination, requests[i], responses[i].payload, requests[i + 1])
  }

  ghost predicate Follow(spec: Spec, checkpoint: Option<CheckpointState>, pagination: Pagination,
                         responses: seq<Response>, requests: seq<Option<Json>>) {
    forall i: nat :: i + 1 < |requests| ==> FollowsPage(spec, checkpoint, pagination, responses, requests, i)
  }

  predicate ReadablePage(spec: Spec, payload: Json) {
    PageHolds(spec, payload, ItemsIn(spec, payload)) && AllReadable(spec, ItemsIn(spec, payload))
  }

  predicate ReadablePageAt(spec: Spec, responses: seq<Response>, i: nat) {
    IsPage(responses, i) ==> ReadablePage(spec, responses[i].payload)
  }

  predicate ReadablePages(spec: Spec, responses: seq<Response>, n: nat) {
    forall i: nat :: i < n ==> ReadablePageAt(spec, responses, i)
  }

  /** A fetch that returns rows ended at a page that calls for no more. */
  ghost predicate EndsAtLastPage(spec: Spec, checkpoint: Option<CheckpointState>, pagination: Pagination,
                                 responses: seq<Response>, r: Outcome)
    requires r.requests != []
  {
    var last := |r.requests| - 1;
    r.Fetched? ==>
      && IsPage(responses, last) && ProperPage(spec, responses[last].payload)
      && !CallsForMore(spec, checkpoint, pagination, r.requests[last], responses[last].payload)
  }

  /** A fetch over readable pages is abandoned exactly when its last request got no page. */
  ghost predicate AbandonsRightly(spec: Spec, checkpoint: Option<CheckpointState>, pagination: Pagination,
                                  responses: seq<Response>, r: Outcome)
    requires r.requests != []
  {
    Usable(spec, checkpoint) && WellConfigured(spec, pagination) && ReadablePages(spec, responses, |r.requests|) ==>
      (r.Abandoned? <==> !IsPage(responses, |r.requests| - 1))
  }

  // ---- one turn ----

  lemma {:induction false} ScanAllOlder(spec: Spec, checkpoint: Option<CheckpointState>, start: Scan, items: seq<Json>)
    requires ScanItems(spec, checkpoint, start, items).Ok?
    requires checkpoint.None? ==> !start.allOlder
    ensures ScanItems(spec, checkpoint, start, items).value.allOlder ==
            (start.allOlder && AllOlder(spec, checkpoint, items))
    decreases |items|
  {
    if items != [] {
      var front, last := items[..|items| - 1], items[|items| - 1];
      ScanAllOlder(spec, checkpoint, start, front);
      assert items == front + [last];
      OneMore(spec, checkpoint, front, last);
    }
  }

  lemma PageStops(spec: Spec, checkpoint: Option<CheckpointState>, head: Head, payload: Json)
    requires FilterPage(spec, checkpoint, head, payload).Ok?
    ensures var (page, _) := FilterPage(spec, checkpoint, head, payload).value;
            && page.rawItemCount == |ItemsIn(spec, payload)|
            && (page.rawItemCount > 0 ==>
                  page.stopAfterPage == (checkpoint.Some? && AllOlder(spec, checkpoint, ItemsIn(spec, payload))))
  {
    var items := ItemsIn(spec, payload);
    ScanAllOlder(spec, checkpoint, Scan(head, [], checkpoint.Some? && items != []), items);
  }

  lemma {:induction false} ScannedAreRead(spec: Spec, checkpoint: Option<CheckpointState>, start: Scan,
                                          items: seq<Json>)
    requires ScanItems(spec, checkpoint, start, items).Ok?
    ensures forall k :: 0 <= k < |items| ==> HasMarkAndKeys(spec, items[k])
    decreases |items|
  {
    if items != [] {
      ScannedAreRead(spec, checkpoint, start, items[..|items| - 1]);
      ItemsAreRead(spec, items[|items| - 1]);
    }
  }

  /** A page that is not refused holds items that can be read. */
  lemma FilteredIsProper(spec: Spec, checkpoint: Option<CheckpointState>, head: Head, payload: Json)
    requires FilterPage(spec, checkpoint, head, payload).Ok?
    ensures ProperPage(spec, payload)
  {
    var (items, wasObject) := ListItems(ItemsValue(spec, payload)).value;
    var start := Scan(head, [], checkpoint.Some? && items != []);
    ScannedAreRead(spec, checkpoint, start, items);
    if !spec.itemsPathIsRoot {
      var included := ScanItems(spec, checkpoint, start, items).value.included;
      SetSucceedsForAnyValue(payload, spec.itemsPath, WrapItems(included, wasObject), JNull);
    }
  }

  /** A turn that goes on does so after a page that calls for it; one that returns rows ends at a
      page that does not. */
  lemma TurnFollows(spec: Spec, checkpoint: Option<CheckpointState>, pagination: Pagination, p: Progress,
                    response: Response)
    ensures match Turn(spec, checkpoint, pagination, p, response)
            case Finished(r) =>
              && r.requests == p.requests + [p.current]
              && (r.Fetched? ==>
                    response.Page? && ProperPage(spec, response.payload) &&
                    !CallsForMore(spec, checkpoint, pagination, p.current, response.payload))
            case Continue(next) =>
              && next.requests == p.requests + [p.current] && response.Page? && ProperPage(spec, response.payload)
              && CallsForMore(spec, checkpoint, pagination, p.current, response.payload)
              && AsksFor(pagination, p.current, response.payload, next.current)
  {
    if response.Page? && FilterPage(spec, checkpoint, p.head, response.payload).Ok? {
      PageStops(spec, checkpoint, p.head, response.payload);
      FilteredIsProper(spec, checkpoint, p.head, response.payload);
      AdvanceIs(spec, pagination, p.current, response.payload);
    }
  }

  /** The offset, under offset paging, is a number from the first request on. */
  predicate OffsetIsNumber(pagination: Pagination, current: Option<Json>) {
    pagination.Offset? ==> current.Some? && current.value.JNumber?
  }

  lemma {:induction false} ReadableScan(spec: Spec, checkpoint: Option<CheckpointState>, start: Scan,
                                        items: seq<Json>)
    requires Usable(spec, checkpoint) && ReadableHead(spec, start.head) && AllReadable(spec, items)
    ensures ScanItems(spec, checkpoint, start, items).Ok?
    ensures ReadableHead(spec, ScanItems(spec, checkpoint, start, items).value.head)
    decreases |items|
  {
    if items != [] {
      var front, last := items[..|items| - 1], items[|items| - 1];
      ReadableScan(spec, checkpoint, start, front);
      assert ReadableItem(spec, last);
      ReadableStep(spec, checkpoint, ScanItems(spec, checkpoint, start, front).value, last);
    }
  }

  lemma ReadableStep(spec: Spec, checkpoint: Option<CheckpointState>, s: Scan, raw: Json)
    requires Usable(spec, checkpoint) && ReadableHead(spec, s.head) && ReadableItem(spec, raw)
    ensures ScanStep(spec, checkpoint, s, raw).Ok?
    ensures ReadableHead(spec, ScanStep(spec, checkpoint, s, raw).value.head)
  {
    JudgeReadable(spec, checkpoint, raw);
    if s.head.Seen? {
      ComparesReadable(spec.kind, spec.clock, Mark(spec, raw), s.head.mark);
    }
  }

  lemma ReadableFilter(spec: Spec, checkpoint: Option<CheckpointState>, head: Head, payload: Json)
    requires Usable(spec, checkpoint) && ReadableHead(spec, head) && ReadablePage(spec, payload)
    ensures FilterPage(spec, checkpoint, head, payload).Ok?
    ensures ReadableHead(spec, FilterPage(spec, checkpoint, head, payload).value.1)
  {
    var items := ItemsIn(spec, payload);
    ReadableScan(spec, checkpoint, Scan(head, [], checkpoint.Some? && items != []), items);
    FilterScans(spec, checkpoint, head, payload, items);
  }

  lemma ReadableConclusion(spec: Spec, checkpoint: Option<CheckpointState>, head: Head, payloads: seq<Json>,
                           requests: seq<Option<Json>>)
    requires Usable(spec, checkpoint) && ReadableHead(spec, head)
    ensures Conclude(spec, checkpoint, head, payloads, requests).Fetched?
  {
    if head.Seen? && checkpoint.Some? {
      ComparesReadable(spec.kind, spec.clock, head.mark, checkpoint.value.mark);
    }
  }

  /** A readable page is never a reason to abandon. */
  lemma ReadableTurn(spec: Spec, checkpoint: Option<CheckpointState>, pagination: Pagination, p: Progress,
                     payload: Json)
    requires Usable(spec, checkpoint) && WellConfigured(spec, pagination) && OffsetIsNumber(pagination, p.current)
    requires ReadableHead(spec, p.head) && ReadablePage(spec, payload)
    ensures match Turn(spec, checkpoint, pagination, p, Page(payload))
            case Finished(r) => r.Fetched?
            case Continue(next) => OffsetIsNumber(pagination, next.current) && ReadableHead(spec, next.head)
  {
    ReadableFilter(spec, checkpoint, p.head, payload);
    var (page, head) := FilterPage(spec, checkpoint, p.head, payload).value;
    ReadableConclusion(spec, checkpoint, head, p.payloads + [page.filteredPayload], p.requests + [p.current]);
    AdvanceIs(spec, pagination, p.current, payload);
  }

  // ---- the whole fetch ----

  lemma FollowOneMore(spec: Spec, checkpoint: Option<CheckpointState>, pagination: Pagination,
                      responses: seq<Response>, requests: seq<Option<Json>>, current: Option<Json>)
    requires Follow(spec, checkpoint, pagination, responses, requests)
    requires requests != [] ==>
               FollowsPage(spec, checkpoint, pagination, responses, requests + [current], |requests| - 1)
    ensures Follow(spec, checkpoint, pagination, responses, requests + [current])
  {
    forall i: nat | i + 1 < |requests + [current]|
      ensures FollowsPage(spec, checkpoint, pagination, responses, requests + [current], i)
    {
      if i + 1 < |requests| {
        assert FollowsPage(spec, checkpoint, pagination, responses, requests, i);
      }
    }
  }

  /** A turn whose requests so far follow the pages keeps it so, and if it ends the fetch with rows it
      does so at a page that calls for no more. */
  lemma TurnKeepsFollowing(spec: Spec, checkpoint: Option<CheckpointState>, pagination: Pagination, p: Progress,
                           responses: seq<Response>, i: nat)
    requires |p.requests| == i
    requires Follow(spec, checkpoint, pagination, responses, p.requests + [p.current])
    ensures match Turn(spec, checkpoint, pagination, p, ResponseAt(responses, i))
            case Finished(r) =>
              r.requests == p.requests + [p.current] && EndsAtLastPage(spec, checkpoint, pagination, responses, r)
            case Continue(next) =>
              && next.requests == p.requests + [p.current]
              && Follow(spec, checkpoint, pagination, responses, next.requests + [next.current])
  {
    var turn := Turn(spec, checkpoint, pagination, p, ResponseAt(responses, i));
    TurnFollows(spec, checkpoint, pagination, p, ResponseAt(responses, i));
    if turn.Continue? {
      FollowOneMore(spec, checkpoint, pagination, responses, turn.next.requests, turn.next.current);
    }
  }

  lemma {:induction false} FetchFollows(spec: Spec, checkpoint: Option<CheckpointState>, pagination: Pagination,
                                        p: Progress, responses: seq<Response>, i: nat)
    requires |p.requests| == i
    requires Follow(spec, checkpoint, pagination, responses, p.requests + [p.current])
    ensures var r := FetchPages(spec, checkpoint, pagination, p, responses, i);
            && p.requests + [p.current] <= r.requests
            && Follow(spec, checkpoint, pagination, responses, r.requests)
            && EndsAtLastPage(spec, checkpoint, pagination, responses, r)
    decreases |responses| - i
  {
    var turn := Turn(spec, checkpoint, pagination, p, ResponseAt(responses, i));
    TurnKeepsFollowing(spec, checkpoint, pagination, p, responses, i);
    if turn.Continue? && i < |responses| {
      FetchFollows(spec, checkpoint, pagination, turn.next, responses, i + 1);
    }
  }

  lemma {:induction false} FetchSends(spec: Spec, checkpoint: Option<CheckpointState>, pagination: Pagination,
                                      p: Progress, responses: seq<Response>, i: nat)
    ensures p.requests + [p.current] <= FetchPages(spec, checkpoint, pagination, p, responses, i).requests
    decreases |responses| - i
  {
    var turn := Turn(spec, checkpoint, pagination, p, ResponseAt(responses, i));
    TurnFollows(spec, checkpoint, pagination, p, ResponseAt(responses, i));
    if turn.Continue? {
      FetchSends(spec, checkpoint, pagination, turn.next, responses, i + 1);
    }
  }

  /** The `i`-th turn of a fetch over readable pages. */
  predicate Reads(spec: Spec, pagination: Pagination, responses: seq<Response>, i: nat, round: Round) {
    match round
    case Finished(r) => |r.requests| == i + 1 && (r.Abandoned? <==> !IsPage(responses, i))
    case Continue(next) =>
      && |next.requests| == i + 1 && IsPage(responses, i)
      && OffsetIsNumber(pagination, next.current) && ReadableHead(spec, next.head)
  }

  lemma TurnReads(spec: Spec, checkpoint: Option<CheckpointState>, pagination: Pagination, p: Progress,
                  responses: seq<Response>, i: nat)
    requires |p.requests| == i && Usable(spec, checkpoint) && WellConfigured(spec, pagination)
    requires OffsetIsNumber(pagination, p.current) && ReadableHead(spec, p.head)
    requires ReadablePageAt(spec, responses, i)
    ensures Reads(spec, pagination, responses, i, Turn(spec, checkpoint, pagination, p, ResponseAt(responses, i)))
  {
    TurnFollows(spec, checkpoint, pagination, p, ResponseAt(responses, i));
    if IsPage(responses, i) {
      ReadableTurn(spec, checkpoint, pagination, p, responses[i].payload);
    }
  }

  lemma {:induction false} ReadableRounds(spec: Spec, checkpoint: Option<CheckpointState>, pagination: Pagination,
                                          round: Round, responses: seq<Response>, i: nat, n: nat)
    requires Usable(spec, checkpoint) && WellConfigured(spec, pagination)
    requires Reads(spec, pagination, responses, i, round) && ReadablePages(spec, responses, n)
    requires |FetchOn(spec, checkpoint, pagination, round, responses, i).requests| <= n
    ensures var r := FetchOn(spec, checkpoint, pagination, round, responses, i);
            |r.requests| > i && (r.Abandoned? <==> !IsPage(responses, |r.requests| - 1))
    decreases |responses| - i
  {
    if round.Continue? {
      FetchSends(spec, checkpoint, pagination, round.next, responses, i + 1);
      assert ReadablePageAt(spec, responses, i + 1);
      TurnReads(spec, checkpoint, pagination, round.next, responses, i + 1);
      ReadableRounds(spec, checkpoint, pagination,
                     Turn(spec, checkpoint, pagination, round.next, ResponseAt(responses, i + 1)), responses, i + 1, n);
    }
  }

  /** A stored text of this strategy that does not hold a state: the type is not one of the three,
      or the boundary keys are not a list of texts. */
  predicate HoldsNoState(fields: map<string, Json>) {
    || "watermark_type" !in fields || !fields["watermark_type"].JString?
    || ToLower(TrimSpace(fields["watermark_type"].text)) !in {"number", "string", "datetime"}
    || ("boundary_keys" in fields &&
        (!fields["boundary_keys"].JArray? || exists x :: x in fields["boundary_keys"].items && !x.JString?))
  }

  predicate OfThisStrategy(stored: Stored) {
    && stored.Decoded? && stored.json.JObject? && "strategy" in stored.json.fields
    && stored.json.fields["strategy"].JString?
    && ToLower(TrimSpace(stored.json.fields["strategy"].text)) == "head-watermark"
  }

  /** The requests of a fetch, for any answers. None is sent exactly when the stored text is not JSON
      or of this strategy without a state. Otherwise the first carries the configured start; each
      later one follows a page with items that are not all older and that offers a cursor, and
      carries exactly that cursor (or the next offset); and the fetch ends at the first page that
      does not call for more. Every page it takes holds items with a watermark and keys. */
  lemma RequestsFollowThePages(spec: Spec, stored: Stored, pagination: Pagination, responses: seq<Response>)
    ensures var r := FetchCycle(spec, stored, pagination, responses);
            r.requests == [] <==> stored.Malformed? || (OfThisStrategy(stored) && HoldsNoState(stored.json.fields))
    ensures var r := FetchCycle(spec, stored, pagination, responses);
            if r.requests == [] then r.Abandoned?
            else
              var checkpoint := SyncRuns.CheckpointOf(stored);
              && (checkpoint.Some? ==> OfThisStrategy(stored))
              && r.requests[0] == (if pagination.Offset? then Some(pagination.start) else None)
              && Follow(spec, checkpoint, pagination, responses, r.requests)
              && EndsAtLastPage(spec, checkpoint, pagination, responses, r)
              && AbandonsRightly(spec, checkpoint, pagination, responses, r)
  {
    ParsesUnless(stored);
    if ParseHeadWatermarkCheckpoint(stored).Ok? {
      var checkpoint := ParseHeadWatermarkCheckpoint(stored).value;
      FetchFollows(spec, checkpoint, pagination, Begin(pagination), responses, 0);
      BeginAbandons(spec, checkpoint, pagination, responses);
    }
  }

  lemma ParsesUnless(stored: Stored)
    ensures ParseHeadWatermarkCheckpoint(stored).Failed? <==>
            stored.Malformed? || (OfThisStrategy(stored) && HoldsNoState(stored.json.fields))
    ensures ParseHeadWatermarkCheckpoint(stored).Ok? ==>
              (ParseHeadWatermarkCheckpoint(stored).value.Some? <==> OfThisStrategy(stored))
  {
  }

  lemma BeginAbandons(spec: Spec, checkpoint: Option<CheckpointState>, pagination: Pagination,
                      responses: seq<Response>)
    ensures var r := FetchPages(spec, checkpoint, pagination, Begin(pagination), responses, 0);
            r.requests != [] && AbandonsRightly(spec, checkpoint, pagination, responses, r)
  {
    var p := Begin(pagination);
    var r := FetchPages(spec, checkpoint, pagination, p, responses, 0);
    FetchSends(spec, checkpoint, pagination, p, responses, 0);
    if Usable(spec, checkpoint) && WellConfigured(spec, pagination) && ReadablePages(spec, responses, |r.requests|) {
      assert ReadablePageAt(spec, responses, 0);
      TurnReads(spec, checkpoint, pagination, p, responses, 0);
      ReadableRounds(spec, checkpoint, pagination, Turn(spec, checkpoint, pagination, p, ResponseAt(responses, 0)),
                     responses, 0, |r.requests|);
    }
  }
}
