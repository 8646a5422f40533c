/** Watermarks that cannot be compared: when a fetch saves one as its checkpoint, and what that
    checkpoint does to every later fetch. */
module UnreadableMarks {
  import opened Common
  import opened Watermarks
  import opened HeadWatermark
  import opened PageCuts
  import opened SyncRuns

  // ---- what the head is worth, readable or not ----

  /** The first item is taken as the head without a comparison; from the second on, every item was
      compared with the head before it. */
  ghost predicate Counted(spec: Spec, seen: seq<Json>, head: Head) {
    && (seen == [] <==> head.Unseen?)
    && (|seen| == 1 ==> ReadItem(spec, seen[0]).Ok? && head == Seen(Mark(spec, seen[0]), {Key(spec, seen[0])}))
    && (|seen| > 1 ==> Readable(spec.kind, spec.clock, head.mark))
  }

  lemma StepCounts(spec: Spec, seen: seq<Json>, s: Scan, raw: Json)
    requires Counted(spec, seen, s.head) && ScanStep(spec, None, s, raw).Ok?
    ensures Counted(spec, seen + [raw], ScanStep(spec, None, s, raw).value.head)
  {
    if seen != [] {
      ComparesReadable(spec.kind, spec.clock, ReadItem(spec, raw).value.mark, s.head.mark);
    }
  }

  lemma {:induction false} ScanCounts(spec: Spec, seen: seq<Json>, start: Scan, items: seq<Json>)
    requires Counted(spec, seen, start.head) && ScanItems(spec, None, start, items).Ok?
    ensures Counted(spec, seen + items, ScanItems(spec, None, start, items).value.head)
    decreases |items|
  {
    if items == [] {
      assert seen + items == seen;
    } else {
      var front, last := items[..|items| - 1], items[|items| - 1];
      ScanCounts(spec, seen, start, front);
      StepCounts(spec, seen + front, ScanItems(spec, None, start, front).value, last);
      assert seen + items == (seen + front) + [last];
    }
  }

  /** A feed that consists of one item with a watermark and a key, whatever the watermark is. */
  predicate OneItem(spec: Spec, feed: seq<Json>) {
    |feed| == 1 && ReadItem(spec, feed[0]).Ok?
  }

  lemma ScanOne(spec: Spec, feed: seq<Json>, done: nat, m: nat, start: Scan)
    requires OneItem(spec, feed) && done <= m <= 1 && Counted(spec, feed[..done], start.head)
    ensures ScanItems(spec, None, start, feed[done..m]).Ok?
  {
    if done < m {
      assert feed[done..m] == feed && feed[..1][..0] == [];
      assert ScanItems(spec, None, start, feed[..0]) == Ok(start);
    }
  }

  // ---- when an unreadable watermark is saved ----

  /** The fetch ended with a head that counts the whole feed; and it did end with one when the feed
      is a single item. */
  ghost predicate Told(spec: Spec, feed: seq<Json>, r: Outcome) {
    && (r.Fetched? ==>
          exists head :: Counted(spec, feed, head) && r == Conclude(spec, None, head, r.payloads, r.requests))
    && (OneItem(spec, feed) ==> r.Fetched?)
  }

  ghost predicate Counting(spec: Spec, pagination: Pagination, responses: seq<Response>, i: nat,
                           feed: seq<Json>, m: nat, round: Round)
    requires m <= |feed|
  {
    match round
    case Finished(outcome) => Told(spec, feed, outcome)
    case Continue(next) =>
      Counted(spec, feed[..m], next.head) && Serves(spec, None, pagination, next.current, responses, i + 1, feed[m..])
  }

  lemma PageCounts(spec: Spec, feed: seq<Json>, done: nat, m: nat, head: Head, payload: Json)
    requires done <= m <= |feed| && Counted(spec, feed[..done], head) && PageHolds(spec, payload, feed[done..m])
    ensures var r := FilterPage(spec, None, head, payload);
            && (r.Ok? ==>
                  r.value.0.rawItemCount == m - done && !r.value.0.stopAfterPage && Counted(spec, feed[..m], r.value.1))
            && (OneItem(spec, feed) ==> r.Ok?)
  {
    var start, items := Scan(head, [], false), feed[done..m];
    FilterScans(spec, None, head, payload, items);
    if OneItem(spec, feed) {
      ScanOne(spec, feed, done, m, start);
    }
    if ScanItems(spec, None, start, items).Ok? {
      ScanCounts(spec, feed[..done], start, items);
      assert feed[..done] + items == feed[..m];
      NeverAllOlder(spec, start, items);
    }
  }

  lemma {:induction false} NeverAllOlder(spec: Spec, start: Scan, items: seq<Json>)
    requires !start.allOlder && ScanItems(spec, None, start, items).Ok?
    ensures !ScanItems(spec, None, start, items).value.allOlder
    decreases |items|
  {
    if items != [] {
      NeverAllOlder(spec, start, items[..|items| - 1]);
    }
  }

  lemma TurnCounts(spec: Spec, pagination: Pagination, p: Progress, responses: seq<Response>, i: nat,
                   feed: seq<Json>, done: nat) returns (m: nat)
    requires done <= |feed| && Counted(spec, feed[..done], p.head)
    requires Serves(spec, None, pagination, p.current, responses, i, feed[done..])
    ensures i < |responses| && m <= |feed|
    ensures Counting(spec, pagination, responses, i, feed, m, Turn(spec, None, pagination, p, responses[i]))
  {
    var rest := feed[done..];
    var n :| 0 <= n <= |rest| && ServesPage(spec, None, pagination, p.current, responses, i, rest, n);
    m := done + n;
    assert rest[..n] == feed[done..m] && rest[n..] == feed[m..];
    PageCounts(spec, feed, done, m, p.head, responses[i].payload);
    AdvanceIs(spec, pagination, p.current, responses[i].payload);
    assert m == |feed| ==> feed[..m] == feed;
  }

  lemma {:induction false} RoundsCount(spec: Spec, pagination: Pagination, round: Round, responses: seq<Response>,
                                       i: nat,
                                       feed: seq<Json>, m: nat)
    requires m <= |feed| && Counting(spec, pagination, responses, i, feed, m, round)
    ensures Told(spec, feed, FetchOn(spec, None, pagination, round, responses, i))
    decreases |responses| - i
  {
    if round.Continue? {
      var m' := TurnCounts(spec, pagination, round.next, responses, i + 1, feed, m);
      RoundsCount(spec, pagination, Turn(spec, None, pagination, round.next, responses[i + 1]), responses, i + 1, feed,
                  m');
    }
  }

  ghost predicate SavesUnreadable(spec: Spec, r: Outcome) {
    r.Fetched? && r.pending.Some? && !Readable(spec.kind, spec.clock, r.pending.value.mark)
  }

  lemma FirstFetchTold(spec: Spec, stored: Stored, pagination: Pagination, responses: seq<Response>, feed: seq<Json>)
    requires ParseHeadWatermarkCheckpoint(stored) == Ok(None)
    requires Serves(spec, None, pagination, InitialValue(pagination), responses, 0, feed)
    ensures Told(spec, feed, FetchCycle(spec, stored, pagination, responses))
  {
    assert feed[..0] == [] && feed[0..] == feed;
    var p := Begin(pagination);
    var m := TurnCounts(spec, pagination, p, responses, 0, feed, 0);
    RoundsCount(spec, pagination, Turn(spec, None, pagination, p, responses[0]), responses, 0, feed, m);
  }

  /** A fetch without a checkpoint ends with a checkpoint that cannot be compared exactly when the
      feed is one item whose watermark cannot be read in the declared type. Neither order nor
      readability of the feed is assumed. */
  lemma SavesUnreadableExactlyWhenAlone(spec: Spec, stored: Stored, pagination: Pagination, responses: seq<Response>,
                                        feed: seq<Json>)
    requires ParseHeadWatermarkCheckpoint(stored) == Ok(None)
    requires Serves(spec, None, pagination, InitialValue(pagination), responses, 0, feed)
    ensures SavesUnreadable(spec, FetchCycle(spec, stored, pagination, responses)) <==>
              |feed| == 1 && ReadItem(spec, feed[0]).Ok? && !Readable(spec.kind, spec.clock, Mark(spec, feed[0]))
  {
    FirstFetchTold(spec, stored, pagination, responses, feed);
  }

  // ---- with a checkpoint, only readable watermarks are saved ----

  lemma {:induction false} JudgedIsReadable(spec: Spec, cp: CheckpointState, start: Scan, items: seq<Json>)
    requires ReadableHead(spec, start.head) && ScanItems(spec, Some(cp), start, items).Ok?
    ensures ReadableHead(spec, ScanItems(spec, Some(cp), start, items).value.head)
    decreases |items|
  {
    if items != [] {
      var front, last := items[..|items| - 1], items[|items| - 1];
      JudgedIsReadable(spec, cp, start, front);
      ComparesReadable(spec.kind, spec.clock, ReadItem(spec, last).value.mark, cp.mark);
    }
  }

  /** A round that leads to no unreadable checkpoint. */
  ghost predicate Judged(spec: Spec, round: Round) {
    match round
    case Finished(outcome) => !SavesUnreadable(spec, outcome)
    case Continue(next) => ReadableHead(spec, next.head)
  }

  lemma JudgedTurn(spec: Spec, cp: CheckpointState, pagination: Pagination, p: Progress, response: Response)
    requires ReadableHead(spec, p.head)
    ensures Judged(spec, Turn(spec, Some(cp), pagination, p, response))
  {
    if response.Page? && ListItems(ItemsValue(spec, response.payload)).Ok? {
      var items := ListItems(ItemsValue(spec, response.payload)).value.0;
      if ScanItems(spec, Some(cp), Scan(p.head, [], items != []), items).Ok? {
        JudgedIsReadable(spec, cp, Scan(p.head, [], items != []), items);
      }
    }
  }

  lemma {:induction false} JudgedRounds(spec: Spec, cp: CheckpointState, pagination: Pagination, round: Round,
                                        responses: seq<Response>, i: nat)
    requires Judged(spec, round)
    ensures !SavesUnreadable(spec, FetchOn(spec, Some(cp), pagination, round, responses, i))
    decreases |responses| - i
  {
    if round.Continue? && i < |responses| {
      JudgedTurn(spec, cp, pagination, round.next, ResponseAt(responses, i + 1));
      JudgedRounds(spec, cp, pagination, Turn(spec, Some(cp), pagination, round.next, ResponseAt(responses, i + 1)),
                   responses, i + 1);
    }
  }

  /** Once there is a checkpoint, whatever the API answers, no unreadable watermark is saved. */
  lemma LaterFetchesSaveReadable(spec: Spec, stored: Stored, cp: CheckpointState, pagination: Pagination,
                                 responses: seq<Response>)
    requires ParseHeadWatermarkCheckpoint(stored) == Ok(Some(cp))
    ensures !SavesUnreadable(spec, FetchCycle(spec, stored, pagination, responses))
  {
    var p := Begin(pagination);
    JudgedTurn(spec, cp, pagination, p, ResponseAt(responses, 0));
    JudgedRounds(spec, cp, pagination, Turn(spec, Some(cp), pagination, p, ResponseAt(responses, 0)), responses, 0);
  }

  // ---- what an unreadable checkpoint does ----

  ghost predicate Poisoned(spec: Spec, cp: CheckpointState) {
    cp.kind == spec.kind && !Readable(spec.kind, spec.clock, cp.mark)
  }

  lemma {:induction false} UnreadableStops(spec: Spec, cp: CheckpointState, start: Scan, items: seq<Json>)
    requires Poisoned(spec, cp) && items != []
    ensures ScanItems(spec, Some(cp), start, items).Failed?
    decreases |items|
  {
    var front, last := items[..|items| - 1], items[|items| - 1];
    if front == [] {
      assert ScanItems(spec, Some(cp), start, front) == Ok(start);
      if ReadItem(spec, last).Ok? {
        ComparesReadable(spec.kind, spec.clock, ReadItem(spec, last).value.mark, cp.mark);
      }
    } else {
      UnreadableStops(spec, cp, start, front);
    }
  }

  /** The first page decides: with items in it the fetch is abandoned, without it ends empty. */
  lemma PoisonedTurn(spec: Spec, cp: CheckpointState, pagination: Pagination, response: Response)
    requires Poisoned(spec, cp)
    ensures var round := Turn(spec, Some(cp), pagination, Begin(pagination), response);
            && round.Finished? && (round.outcome.Fetched? ==> round.outcome.pending == None)
            && (response.Page? && ItemsIn(spec, response.payload) != [] ==> round.outcome.Abandoned?)
            && (response.Page? && PageHolds(spec, response.payload, []) ==> round.outcome.Fetched?)
  {
    if response.Page? && ListItems(ItemsValue(spec, response.payload)).Ok? {
      var (items, wasObject) := ListItems(ItemsValue(spec, response.payload)).value;
      var start := Scan(Unseen, [], items != []);
      if items == [] {
        assert ScanItems(spec, Some(cp), start, items) == Ok(start);
        if !spec.itemsPathIsRoot {
          SetSucceedsForAnyValue(response.payload, spec.itemsPath, JNull, WrapItems([], wasObject));
        }
      } else {
        UnreadableStops(spec, cp, start, items);
      }
    }
  }

  /** With an unreadable checkpoint a fetch of a served feed is abandoned exactly when the feed has
      an item, and whatever the API answers no fetch has a checkpoint to save. */
  lemma PoisonedFetch(spec: Spec, stored: Stored, cp: CheckpointState, pagination: Pagination, responses: seq<Response>)
    requires ParseHeadWatermarkCheckpoint(stored) == Ok(Some(cp)) && Poisoned(spec, cp)
    ensures var r := FetchCycle(spec, stored, pagination, responses);
            && (r.Fetched? ==> r.pending == None)
            && forall feed: seq<Json> ::
                 Serves(spec, Some(cp), pagination, InitialValue(pagination), responses, 0, feed) ==>
                 (r.Abandoned? <==> feed != [])
  {
    PoisonedTurn(spec, cp, pagination, ResponseAt(responses, 0));
    forall feed: seq<Json> | Serves(spec, Some(cp), pagination, InitialValue(pagination), responses, 0, feed)
      ensures FetchCycle(spec, stored, pagination, responses).Abandoned? <==> feed != []
    {
      FirstPage(spec, cp, pagination, responses, feed);
    }
  }

  lemma FirstPage(spec: Spec, cp: CheckpointState, pagination: Pagination, responses: seq<Response>, feed: seq<Json>)
    requires Serves(spec, Some(cp), pagination, InitialValue(pagination), responses, 0, feed)
    ensures responses != [] && responses[0].Page?
    ensures if feed == [] then PageHolds(spec, responses[0].payload, []) else ItemsIn(spec, responses[0].payload) != []
  {
    var n :| 0 <= n <= |feed| &&
        ServesPage(spec, Some(cp), pagination, InitialValue(pagination), responses, 0, feed, n);
    assert n == 0 ==> feed[..n] == [];
  }

  /** Cycles over one key, each applied, saved and successful. */
  function Cycles(src: Source, st: KeyState, rounds: seq<seq<Response>>): KeyState {
    if rounds == [] then st
    else CycleKey(src, Cycles(src, st, rounds[..|rounds| - 1]), rounds[|rounds| - 1], true, true)
  }

  /** An unreadable checkpoint is never replaced, however many cycles follow and whatever the API
      answers in them. */
  lemma {:induction false} PoisonIsForever(src: Source, st: KeyState, cp: CheckpointState, rounds: seq<seq<Response>>)
    requires ParseHeadWatermarkCheckpoint(st.stored) == Ok(Some(cp)) && Poisoned(src.spec, cp)
    ensures Cycles(src, st, rounds).stored == st.stored
    decreases |rounds|
  {
    if rounds != [] {
      PoisonIsForever(src, st, cp, rounds[..|rounds| - 1]);
      PoisonedFetch(src.spec, st.stored, cp, src.pagination, rounds[|rounds| - 1]);
    }
  }

  /** The poison is real: a feed of one item with an unreadable watermark is fetched once, saved,
      and from then on every fetch of a feed with items is abandoned. */
  lemma OneItemPoisonsItsFeed(src: Source, raw: Json, rounds: seq<seq<Response>>, responses: seq<Response>,
                              feed: seq<Json>)
    returns (cp: CheckpointState)
    requires WellConfigured(src.spec, src.pagination)
    requires ReadItem(src.spec, raw).Ok? && !Readable(src.spec.kind, src.spec.clock, Mark(src.spec, raw))
    ensures var first := CycleKey(src, NewKey([raw]), WholeFeed(src.spec, [raw]), true, true);
            var later := Cycles(src, first, rounds);
            && ParseHeadWatermarkCheckpoint(later.stored) == Ok(Some(cp)) && cp.mark == Mark(src.spec, raw)
            && (feed != [] &&
                Serves(src.spec, Some(cp), src.pagination, InitialValue(src.pagination), responses, 0, feed) ==>
                  OutcomeFor(src, later, responses).Abandoned?)
  {
    var first := CycleKey(src, NewKey([raw]), WholeFeed(src.spec, [raw]), true, true);
    var r := OutcomeFor(src, NewKey([raw]), WholeFeed(src.spec, [raw]));
    AnyFeedCanBeServed(src.spec, None, src.pagination, [raw]);
    FirstFetchTold(src.spec, Blank, src.pagination, WholeFeed(src.spec, [raw]), [raw]);
    cp := r.pending.value;
    CheckpointRoundTrip(cp);
    PoisonIsForever(src, first, cp, rounds);
    PoisonedFetch(src.spec, first.stored, cp, src.pagination, responses);
  }
}
