/** What a head-watermark fetch returns, said of the feed alone: which items, and which pending
    checkpoint, whatever the page cuts. */
module PageCuts {
  import opened Common
  import opened Watermarks
  import opened HeadWatermark

  function Mark(spec: Spec, raw: Json): Json {
    if ReadItem(spec, raw).Ok? then ReadItem(spec, raw).value.mark else JNull
  }

  function Key(spec: Spec, raw: Json): string {
    if ReadItem(spec, raw).Ok? then ReadItem(spec, raw).value.key else ""
  }

  function Cmp(spec: Spec, a: Json, b: Json): int {
    if CompareWatermarkValues(spec.kind, spec.clock, a, b).Ok?
         then CompareWatermarkValues(spec.kind, spec.clock, a, b).value else 0
  }

  predicate ReadableItem(spec: Spec, raw: Json) {
    ReadItem(spec, raw).Ok? && Readable(spec.kind, spec.clock, Mark(spec, raw))
  }

  predicate AllReadable(spec: Spec, items: seq<Json>) {
    forall i :: 0 <= i < |items| ==> ReadableItem(spec, items[i])
  }

  /** The README's first two assumptions: watermarks never rise along the feed. */
  predicate Descending(spec: Spec, items: seq<Json>) {
    forall i, j :: 0 <= i < j < |items| ==> Cmp(spec, Mark(spec, items[j]), Mark(spec, items[i])) <= 0
  }

  predicate Usable(spec: Spec, checkpoint: Option<CheckpointState>) {
    checkpoint.Some? ==> checkpoint.value.kind == spec.kind && Readable(spec.kind, spec.clock, checkpoint.value.mark)
  }

  /** The item lies past the checkpoint. */
  predicate Fresh(spec: Spec, checkpoint: Option<CheckpointState>, raw: Json) {
    checkpoint.Some? ==>
      var c := Cmp(spec, Mark(spec, raw), checkpoint.value.mark);
      c > 0 || (c == 0 && Key(spec, raw) !in checkpoint.value.boundaryKeys)
  }

  function FreshItems(spec: Spec, checkpoint: Option<CheckpointState>, items: seq<Json>): seq<Json> {
    if items == [] then []
    else
      var front := FreshItems(spec, checkpoint, items[..|items| - 1]);
      if Fresh(spec, checkpoint, items[|items| - 1]) then front + [items[|items| - 1]] else front
  }

  predicate Older(spec: Spec, checkpoint: Option<CheckpointState>, raw: Json) {
    checkpoint.Some? && Cmp(spec, Mark(spec, raw), checkpoint.value.mark) < 0
  }

  predicate AllOlder(spec: Spec, checkpoint: Option<CheckpointState>, items: seq<Json>) {
    forall i :: 0 <= i < |items| ==> Older(spec, checkpoint, items[i])
  }

  function KeysAt(spec: Spec, items: seq<Json>, mark: Json): set<string> {
    set i | 0 <= i < |items| && Cmp(spec, Mark(spec, items[i]), mark) == 0 :: Key(spec, items[i])
  }

  /** The checkpoint a feed calls for: its highest watermark with every key at it, unless the
      feed is empty or has fallen behind the saved checkpoint. */
  function PendingOf(spec: Spec, checkpoint: Option<CheckpointState>, feed: seq<Json>): Option<CheckpointState> {
    if feed == [] then None
    else
      var top := Mark(spec, feed[0]);
      if checkpoint.Some? && Cmp(spec, top, checkpoint.value.mark) < 0 then None
      else Some(CheckpointState(spec.kind, top, KeysAt(spec, feed, top)))
  }

  ghost predicate InjectiveMarshal(spec: Spec) {
    forall a, b :: spec.marshal(a) == spec.marshal(b) ==> a == b
  }

  predicate HasMarkAndKeys(spec: Spec, raw: Json) {
    raw.JObject? && ResolveByPath(raw, spec.watermarkPath) != JNull &&
    forall i :: 0 <= i < |spec.keyPaths| ==> ResolveByPath(raw, spec.keyPaths[i]) != JNull
  }

  /** An item can be read exactly when it is an object with a value at the watermark path and at
      every key path, and its mark is the value at the watermark path. */
  lemma ItemsAreRead(spec: Spec, raw: Json)
    ensures ReadItem(spec, raw).Ok? <==> HasMarkAndKeys(spec, raw)
    ensures ReadItem(spec, raw).Ok? ==> Mark(spec, raw) == ResolveByPath(raw, spec.watermarkPath)
  {
    var values := KeyValues(raw, spec.keyPaths);
    assert forall i :: 0 <= i < |spec.keyPaths| ==> values[i] == ResolveByPath(raw, spec.keyPaths[i]);
    if JNull in values {
      var i :| 0 <= i < |values| && values[i] == JNull;
      assert ResolveByPath(raw, spec.keyPaths[i]) == JNull;
    }
  }

  /** Two items share a key exactly when they agree at every key path. */
  lemma KeysTellItemsApart(spec: Spec, a: Json, b: Json)
    requires InjectiveMarshal(spec) && ReadItem(spec, a).Ok? && ReadItem(spec, b).Ok?
    ensures Key(spec, a) == Key(spec, b) <==>
            forall i :: 0 <= i < |spec.keyPaths| ==>
                          ResolveByPath(a, spec.keyPaths[i]) == ResolveByPath(b, spec.keyPaths[i])
  {
    var x, y := KeyValues(a, spec.keyPaths), KeyValues(b, spec.keyPaths);
    assert Key(spec, a) == Key(spec, b) <==> x == y;
    if x == y {
      forall i | 0 <= i < |spec.keyPaths|
        ensures ResolveByPath(a, spec.keyPaths[i]) == ResolveByPath(b, spec.keyPaths[i])
      {
        assert x[i] == y[i];
      }
    }
  }

  // ---- the order, through Cmp ----

  lemma CmpOrders(spec: Spec, a: Json, b: Json, c: Json)
    requires Readable(spec.kind, spec.clock, a) && Readable(spec.kind, spec.clock, b) &&
             Readable(spec.kind, spec.clock, c)
    ensures Cmp(spec, a, b) == -Cmp(spec, b, a) && Cmp(spec, a, a) == 0
    ensures Cmp(spec, a, b) <= 0 && Cmp(spec, b, c) <= 0 ==> Cmp(spec, a, c) <= 0
    ensures Cmp(spec, a, b) == 0 ==> Cmp(spec, a, c) == Cmp(spec, b, c)
    ensures Cmp(spec, a, b) < 0 && Cmp(spec, b, c) <= 0 ==> Cmp(spec, a, c) < 0
    ensures Cmp(spec, a, b) <= 0 && Cmp(spec, b, c) < 0 ==> Cmp(spec, a, c) < 0
  {
    ComparesReadable(spec.kind, spec.clock, a, b);
    ComparesReadable(spec.kind, spec.clock, b, c);
    ComparesReadable(spec.kind, spec.clock, a, c);
    if Cmp(spec, a, b) <= 0 && Cmp(spec, b, c) <= 0 {
      AtMostTransitive(spec.kind, spec.clock, a, b, c);
      if Cmp(spec, a, c) == 0 {
        SameMarkComparesAlike(spec.kind, spec.clock, a, c, b);
      }
    }
    if Cmp(spec, a, b) == 0 {
      SameMarkComparesAlike(spec.kind, spec.clock, a, b, c);
    }
  }

  lemma {:induction false} FreshItemsSplit(spec: Spec, checkpoint: Option<CheckpointState>, a: seq<Json>, b: seq<Json>)
    ensures FreshItems(spec, checkpoint, a + b) == FreshItems(spec, checkpoint, a) + FreshItems(spec, checkpoint, b)
    decreases |b|
  {
    if b == [] {
      assert a + b == a;
    } else {
      assert (a + b)[..|a + b| - 1] == a + b[..|b| - 1];
      FreshItemsSplit(spec, checkpoint, a, b[..|b| - 1]);
    }
  }

  lemma {:induction false} OlderItemsAreNotFresh(spec: Spec, checkpoint: Option<CheckpointState>, items: seq<Json>)
    requires AllOlder(spec, checkpoint, items)
    ensures FreshItems(spec, checkpoint, items) == []
    decreases |items|
  {
    if items != [] {
      OlderItemsAreNotFresh(spec, checkpoint, items[..|items| - 1]);
      assert Older(spec, checkpoint, items[|items| - 1]);
    }
  }

  // ---- one page ----

  ghost predicate FirstAt(spec: Spec, items: seq<Json>, i: nat, mark: Json)
    requires i < |items|
  {
    Mark(spec, items[i]) == mark && forall j :: 0 <= j < i ==> Cmp(spec, Mark(spec, items[j]), mark) < 0
  }

  /** The highest watermark, as first seen, with exactly the keys of the items at it. */
  ghost predicate IsHead(spec: Spec, items: seq<Json>, head: Head) {
    if items == [] then head == Unseen
    else
      && head.Seen? && Readable(spec.kind, spec.clock, head.mark)
      && (exists i :: 0 <= i < |items| && FirstAt(spec, items, i, head.mark))
      && (forall i :: 0 <= i < |items| ==> Cmp(spec, Mark(spec, items[i]), head.mark) <= 0)
      && head.keys == KeysAt(spec, items, head.mark)
  }

  lemma ObserveKeepsHead(spec: Spec, items: seq<Json>, head: Head, raw: Json)
    requires AllReadable(spec, items) && ReadableItem(spec, raw) && IsHead(spec, items, head)
    ensures Observe(spec, head, ReadItem(spec, raw).value).Ok?
    ensures IsHead(spec, items + [raw], Observe(spec, head, ReadItem(spec, raw).value).value)
  {
    var r := ReadItem(spec, raw).value;
    var all := items + [raw];
    assert all[|items|] == raw;
    assert forall i :: 0 <= i < |items| ==> all[i] == items[i];
    CmpOrders(spec, r.mark, r.mark, r.mark);
    if head.Unseen? {
      assert FirstAt(spec, all, 0, r.mark);
      assert KeysAt(spec, all, r.mark) == {r.key};
    } else {
      ComparesReadable(spec.kind, spec.clock, r.mark, head.mark);
      var next := Observe(spec, head, r).value;
      CmpOrders(spec, r.mark, head.mark, r.mark);
      forall i | 0 <= i < |items| ensures Cmp(spec, Mark(spec, items[i]), next.mark) <= 0
        ensures Cmp(spec, r.mark, head.mark) > 0 ==> Cmp(spec, Mark(spec, items[i]), next.mark) < 0
      {
        CmpOrders(spec, Mark(spec, items[i]), head.mark, next.mark);
      }
      if Cmp(spec, r.mark, head.mark) > 0 {
        assert FirstAt(spec, all, |items|, r.mark);
      } else {
        var w :| 0 <= w < |items| && FirstAt(spec, items, w, head.mark);
        assert FirstAt(spec, all, w, head.mark);
      }
      KeysAfterObserve(spec, items, head, raw, next);
    }
  }

  lemma KeysAfterObserve(spec: Spec, items: seq<Json>, head: Head, raw: Json, next: Head)
    requires AllReadable(spec, items) && ReadableItem(spec, raw) && items != [] && IsHead(spec, items, head)
    requires Observe(spec, head, ReadItem(spec, raw).value) == Ok(next)
    ensures next.keys == KeysAt(spec, items + [raw], next.mark)
  {
    var r := ReadItem(spec, raw).value;
    var all := items + [raw];
    assert forall i :: 0 <= i < |items| ==> all[i] == items[i];
    assert all[|items|] == raw;
    CmpOrders(spec, r.mark, head.mark, r.mark);
    var c := Cmp(spec, r.mark, head.mark);
    if c > 0 {
      forall i | 0 <= i < |items| ensures Cmp(spec, Mark(spec, items[i]), r.mark) < 0 {
        CmpOrders(spec, Mark(spec, items[i]), head.mark, r.mark);
      }
      assert KeysAt(spec, all, r.mark) == {r.key};
    } else {
      forall k | k in next.keys ensures k in KeysAt(spec, all, next.mark) {
        if k in head.keys {
          var i :| 0 <= i < |items| && Cmp(spec, Mark(spec, items[i]), head.mark) == 0 && Key(spec, items[i]) == k;
          assert all[i] == items[i];
        }
      }
      assert KeysAt(spec, all, next.mark) <= next.keys;
    }
  }

  lemma JudgeReadable(spec: Spec, checkpoint: Option<CheckpointState>, raw: Json)
    requires ReadableItem(spec, raw) && Usable(spec, checkpoint)
    ensures Judge(spec, checkpoint, ReadItem(spec, raw).value)
         == Ok(Verdict(Fresh(spec, checkpoint, raw), Older(spec, checkpoint, raw)))
  {
    if checkpoint.Some? {
      ComparesReadable(spec.kind, spec.clock, Mark(spec, raw), checkpoint.value.mark);
    }
  }

  /** What scanning readable items leaves: the true head of everything seen, the fresh items in
      order, and whether the page was all older. */
  ghost predicate IsScan(spec: Spec, checkpoint: Option<CheckpointState>, before: seq<Json>, flag: bool,
                         items: seq<Json>, s: Scan) {
    && IsHead(spec, before + items, s.head)
    && s.included == FreshItems(spec, checkpoint, items)
    && s.allOlder == (flag && AllOlder(spec, checkpoint, items))
  }

  lemma ScanStepReadable(spec: Spec, checkpoint: Option<CheckpointState>, before: seq<Json>, flag: bool,
                         items: seq<Json>, s: Scan, raw: Json)
    requires AllReadable(spec, before) && AllReadable(spec, items) && ReadableItem(spec, raw) &&
             Usable(spec, checkpoint)
    requires IsScan(spec, checkpoint, before, flag, items, s)
    ensures ScanStep(spec, checkpoint, s, raw).Ok?
    ensures IsScan(spec, checkpoint, before, flag, items + [raw], ScanStep(spec, checkpoint, s, raw).value)
  {
    assert AllReadable(spec, before + items);
    ObserveKeepsHead(spec, before + items, s.head, raw);
    JudgeReadable(spec, checkpoint, raw);
    assert before + (items + [raw]) == (before + items) + [raw];
    OneMore(spec, checkpoint, items, raw);
  }

  lemma OneMore(spec: Spec, checkpoint: Option<CheckpointState>, items: seq<Json>, raw: Json)
    ensures FreshItems(spec, checkpoint, items + [raw]) ==
              if Fresh(spec, checkpoint, raw) then FreshItems(spec, checkpoint, items) + [raw]
                 else FreshItems(spec, checkpoint, items)
    ensures AllOlder(spec, checkpoint, items + [raw]) ==
            (AllOlder(spec, checkpoint, items) && Older(spec, checkpoint, raw))
  {
    var all := items + [raw];
    assert all[..|all| - 1] == items && all[|all| - 1] == raw;
    assert forall i :: 0 <= i < |items| ==> all[i] == items[i];
  }

  lemma {:induction false} ScanReadable(spec: Spec, checkpoint: Option<CheckpointState>, before: seq<Json>, head: Head,
                                        flag: bool, items: seq<Json>)
    requires AllReadable(spec, before) && AllReadable(spec, items) && Usable(spec, checkpoint)
    requires IsHead(spec, before, head)
    ensures ScanItems(spec, checkpoint, Scan(head, [], flag), items).Ok?
    ensures IsScan(spec, checkpoint, before, flag, items,
                   ScanItems(spec, checkpoint, Scan(head, [], flag), items).value)
    decreases |items|
  {
    if items == [] {
      assert before + items == before;
    } else {
      var front, last := items[..|items| - 1], items[|items| - 1];
      assert ReadableItem(spec, last);
      ScanReadable(spec, checkpoint, before, head, flag, front);
      ScanStepReadable(spec, checkpoint, before, flag, front,
                       ScanItems(spec, checkpoint, Scan(head, [], flag), front).value, last);
      assert items == front + [last];
    }
  }

  predicate ReadableHead(spec: Spec, head: Head) {
    head.Seen? ==> Readable(spec.kind, spec.clock, head.mark)
  }

  // ---- a served feed ----

  /** The page holds these items: a list of them, a single object, or nothing at all. */
  predicate PageHolds(spec: Spec, payload: Json, items: seq<Json>) {
    var value := if spec.itemsPathIsRoot then payload else ResolveByPath(payload, spec.itemsPath);
    && (value == JArray(items) || (value.JObject? && items == [value]) || (value == JNull && items == []))
    && (!spec.itemsPathIsRoot ==> SetAtPath(payload, spec.itemsPath, JNull).Ok?)
  }

  /** A page offers a cursor to go on with: the value at the cursor path is there, is not a text of
      white space only, and does not print like the value the page was requested with. */
  ghost predicate OffersCursor(spec: Spec, path: seq<string>, current: Option<Json>, payload: Json) {
    var v := ResolveByPath(payload, path);
    && v != JNull
    && (v.JString? ==> exists k :: 0 <= k < |v.text| && !IsSpace(v.text[k]))
    && (current.Some? ==> spec.format(v) != spec.format(current.value))
  }

  /** The loop goes on exactly with an offered cursor, or with the sum of two numbers. */
  lemma AdvanceIs(spec: Spec, pagination: Pagination, current: Option<Json>, payload: Json)
    ensures pagination.Cursor? ==>
              Advance(spec, pagination, current, payload) ==
              if OffersCursor(spec, pagination.path, current, payload)
              then MoveTo(ResolveByPath(payload, pagination.path)) else StopHere
    ensures pagination.Offset? ==>
              Advance(spec, pagination, current, payload) ==
              if current.Some? && current.value.JNumber? && pagination.increment.JNumber?
              then MoveTo(JNumber(current.value.number + pagination.increment.number)) else Broken
  {
    if pagination.Cursor? && ResolveByPath(payload, pagination.path).JString? {
      TrimSpaceBlank(ResolveByPath(payload, pagination.path).text);
    }
  }

  /** From the `i`-th request on, the responses cut `rest` into non-empty pages, in order, up to
      the first page the checkpoint lies wholly past; a feed that ends does so with an empty page
      or by offering no further cursor. Answers after that are unconstrained. */
  ghost predicate Serves(spec: Spec, checkpoint: Option<CheckpointState>, pagination: Pagination, current: Option<Json>,
                         responses: seq<Response>, i: nat, rest: seq<Json>)
    decreases |responses| - i
  {
    && i < |responses| && responses[i].Page?
    && exists n :: 0 <= n <= |rest| && ServesPage(spec, checkpoint, pagination, current, responses, i, rest, n)
  }

  ghost predicate ServesPage(spec: Spec, checkpoint: Option<CheckpointState>, pagination: Pagination,
                             current: Option<Json>,
                             responses: seq<Response>, i: nat, rest: seq<Json>, n: nat)
    requires i < |responses| && responses[i].Page? && n <= |rest|
    decreases |responses| - i, 0
  {
    var payload := responses[i].payload;
    && PageHolds(spec, payload, rest[..n])
    && (n == 0 ==> rest == [])
    && (n > 0 && !(checkpoint.Some? && AllOlder(spec, checkpoint, rest[..n])) ==>
          if pagination.Offset?
          then current.Some? && current.value.JNumber? && pagination.increment.JNumber? &&
               Serves(spec, checkpoint, pagination, Some(JNumber(current.value.number + pagination.increment.number)),
                      responses, i + 1, rest[n..])
          else if OffersCursor(spec, pagination.path, current, payload)
          then Serves(spec, checkpoint, pagination, Some(ResolveByPath(payload, pagination.path)), responses, i + 1,
                      rest[n..])
          else n == |rest|)
  }

  /** After a served page that is neither empty nor all older the loop ends with the feed, or asks
      for what serves the rest of it. */
  lemma ServedPageLeads(spec: Spec, checkpoint: Option<CheckpointState>, pagination: Pagination, current: Option<Json>,
                        responses: seq<Response>, i: nat, rest: seq<Json>, n: nat)
    requires i < |responses| && responses[i].Page? && 0 < n <= |rest|
    requires ServesPage(spec, checkpoint, pagination, current, responses, i, rest, n)
    requires !(checkpoint.Some? && AllOlder(spec, checkpoint, rest[..n]))
    ensures var move := Advance(spec, pagination, current, responses[i].payload);
            && !move.Broken?
            && (move.StopHere? ==> n == |rest|)
            && (move.MoveTo? ==> Serves(spec, checkpoint, pagination, Some(move.value), responses, i + 1, rest[n..]))
  {
    AdvanceIs(spec, pagination, current, responses[i].payload);
  }

  lemma PageIsListed(spec: Spec, payload: Json, items: seq<Json>) returns (wasObject: bool)
    requires PageHolds(spec, payload, items)
    ensures ListItems(ItemsValue(spec, payload)) == Ok((items, wasObject))
  {
    wasObject := ItemsValue(spec, payload).JObject?;
  }

  lemma FilterPageIs(spec: Spec, checkpoint: Option<CheckpointState>, head: Head, payload: Json, items: seq<Json>,
                     wasObject: bool)
    requires ListItems(ItemsValue(spec, payload)) == Ok((items, wasObject))
    ensures var scan := ScanItems(spec, checkpoint, Scan(head, [], checkpoint.Some? && items != []), items);
            var r := FilterPage(spec, checkpoint, head, payload);
            && (scan.Failed? ==> r.Failed?)
            && (scan.Ok? ==>
                  match SetItems(spec, payload, scan.value.included, wasObject)
                  case Failed => r.Failed?
                  case Ok(filtered) =>
                    r == Ok((PageResult(filtered, |items|, scan.value.allOlder), scan.value.head)))
  {
  }

  lemma SetItemsSucceeds(spec: Spec, payload: Json, items: seq<Json>, included: seq<Json>, wasObject: bool)
    requires PageHolds(spec, payload, items)
    ensures SetItems(spec, payload, included, wasObject).Ok?
  {
    if !spec.itemsPathIsRoot {
      SetSucceedsForAnyValue(payload, spec.itemsPath, JNull, WrapItems(included, wasObject));
    }
  }

  /** Filtering a page comes to scanning its items. */
  lemma FilterScans(spec: Spec, checkpoint: Option<CheckpointState>, head: Head, payload: Json, items: seq<Json>)
    requires PageHolds(spec, payload, items)
    ensures var scan := ScanItems(spec, checkpoint, Scan(head, [], checkpoint.Some? && items != []), items);
            var r := FilterPage(spec, checkpoint, head, payload);
            && (r.Ok? <==> scan.Ok?)
            && (r.Ok? ==>
                  r.value.0.rawItemCount == |items| && r.value.0.stopAfterPage == scan.value.allOlder &&
                  r.value.1 == scan.value.head)
  {
    var wasObject := PageIsListed(spec, payload, items);
    var scan := ScanItems(spec, checkpoint, Scan(head, [], checkpoint.Some? && items != []), items);
    if scan.Ok? {
      SetItemsSucceeds(spec, payload, items, scan.value.included, wasObject);
    }
    FilterPageIs(spec, checkpoint, head, payload, items, wasObject);
  }

  // ---- page-cut independence ----

  lemma HeadOfDescending(spec: Spec, items: seq<Json>, head: Head)
    requires items != [] && AllReadable(spec, items) && Descending(spec, items) && IsHead(spec, items, head)
    ensures head.mark == Mark(spec, items[0])
  {
    var w :| 0 <= w < |items| && FirstAt(spec, items, w, head.mark);
    assert ReadableItem(spec, items[0]) && ReadableItem(spec, items[w]);
    CmpOrders(spec, head.mark, Mark(spec, items[0]), head.mark);
  }

  /** Reading only a prefix gives the feed's own pending checkpoint when nothing after the prefix
      reaches the saved watermark. */
  lemma PrefixSettlesPending(spec: Spec, checkpoint: Option<CheckpointState>, feed: seq<Json>, n: nat, head: Head,
                             payloads: seq<Json>, requests: seq<Option<Json>>)
    requires n <= |feed| && AllReadable(spec, feed) && Descending(spec, feed) && Usable(spec, checkpoint)
    requires IsHead(spec, feed[..n], head)
    requires n == |feed| || (n > 0 && AllOlder(spec, checkpoint, feed[n..]) && checkpoint.Some?)
    ensures Conclude(spec, checkpoint, head, payloads, requests) ==
            Fetched(payloads, PendingOf(spec, checkpoint, feed), requests)
  {
    var read := feed[..n];
    if feed != [] {
      assert AllReadable(spec, read) && Descending(spec, read);
      HeadOfDescending(spec, read, head);
      assert ReadableItem(spec, feed[0]);
      if checkpoint.Some? {
        ComparesReadable(spec.kind, spec.clock, head.mark, checkpoint.value.mark);
      }
      if checkpoint.None? || Cmp(spec, head.mark, checkpoint.value.mark) >= 0 {
        forall i | n <= i < |feed| ensures Cmp(spec, Mark(spec, feed[i]), head.mark) != 0 {
          assert feed[n..][i - n] == feed[i] && ReadableItem(spec, feed[i]);
          CmpOrders(spec, Mark(spec, feed[i]), checkpoint.value.mark, head.mark);
          CmpOrders(spec, head.mark, checkpoint.value.mark, head.mark);
          assert Older(spec, checkpoint, feed[n..][i - n]);
        }
        assert KeysAt(spec, read, head.mark) == KeysAt(spec, feed, head.mark);
      }
    }
  }

  /** The items of a payload; none when it holds something else. */
  function ItemsIn(spec: Spec, payload: Json): seq<Json> {
    var value := if spec.itemsPathIsRoot then payload else ResolveByPath(payload, spec.itemsPath);
    match value
    case JArray(items) => items
    case JObject(_) => [value]
    case _ => []
  }

  function ItemsInAll(spec: Spec, payloads: seq<Json>): seq<Json> {
    if payloads == [] then []
       else ItemsInAll(spec, payloads[..|payloads| - 1]) + ItemsIn(spec, payloads[|payloads| - 1])
  }

  lemma {:induction false} FreshItemsAreMembers(spec: Spec, checkpoint: Option<CheckpointState>, items: seq<Json>)
    ensures forall x :: x in FreshItems(spec, checkpoint, items) ==> x in items
    ensures |FreshItems(spec, checkpoint, items)| <= |items|
    decreases |items|
  {
    if items != [] {
      FreshItemsAreMembers(spec, checkpoint, items[..|items| - 1]);
    }
  }

  lemma WrappedItems(items: seq<Json>, included: seq<Json>, value: Json, wasObject: bool)
    requires ListItems(value) == Ok((items, wasObject))
    requires |included| <= |items| && forall x :: x in included ==> x in items
    ensures match WrapItems(included, wasObject)
            case JArray(list) => list == included
            case JObject(_) => included == [WrapItems(included, wasObject)]
            case _ => included == []
  {
    if wasObject && included != [] {
      assert included[0] in items && included == [included[0]];
    }
  }

  /** The filtered payload holds the included items where the page held its items. */
  lemma FilteredPayloadHolds(spec: Spec, payload: Json, items: seq<Json>, included: seq<Json>)
    requires PageHolds(spec, payload, items)
    requires |included| <= |items| && forall x :: x in included ==> x in items
    ensures ListItems(ItemsValue(spec, payload)).Ok?
    ensures var wasObject := ListItems(ItemsValue(spec, payload)).value.1;
            && SetItems(spec, payload, included, wasObject).Ok?
            && ItemsIn(spec, SetItems(spec, payload, included, wasObject).value) == included
  {
    var wasObject := PageIsListed(spec, payload, items);
    SetItemsSucceeds(spec, payload, items, included, wasObject);
    WrappedItems(items, included, ItemsValue(spec, payload), wasObject);
    if !spec.itemsPathIsRoot {
      SetThenResolve(payload, spec.itemsPath, WrapItems(included, wasObject));
    }
  }

  /** A list of items stays one; a single object stays as it is or is replaced by null. */
  lemma FilteredPageKeepsItsShape(spec: Spec, checkpoint: Option<CheckpointState>, head: Head, payload: Json)
    requires FilterPage(spec, checkpoint, head, payload).Ok?
    ensures var before := ItemsValue(spec, payload);
            var after := ItemsValue(spec, FilterPage(spec, checkpoint, head, payload).value.0.filteredPayload);
            if before.JObject? then after == before || after == JNull else after.JArray?
  {
    var (items, wasObject) := ListItems(ItemsValue(spec, payload)).value;
    var scan := ScanItems(spec, checkpoint, Scan(head, [], checkpoint.Some? && items != []), items).value;
    KeptAreItems(spec, checkpoint, Scan(head, [], checkpoint.Some? && items != []), items);
    FilterPageIs(spec, checkpoint, head, payload, items, wasObject);
    if wasObject && scan.included != [] {
      assert scan.included[0] in items;
    }
    if !spec.itemsPathIsRoot {
      SetThenResolve(payload, spec.itemsPath, WrapItems(scan.included, wasObject));
    }
  }

  lemma {:induction false} KeptAreItems(spec: Spec, checkpoint: Option<CheckpointState>, start: Scan,
                                        items: seq<Json>)
    requires ScanItems(spec, checkpoint, start, items).Ok?
    ensures forall x :: x in ScanItems(spec, checkpoint, start, items).value.included ==>
                          x in start.included || x in items
    decreases |items|
  {
    if items != [] {
      KeptAreItems(spec, checkpoint, start, items[..|items| - 1]);
      assert items == items[..|items| - 1] + [items[|items| - 1]];
    }
  }

  lemma FilterPageReadable(spec: Spec, checkpoint: Option<CheckpointState>, before: seq<Json>, head: Head,
                           payload: Json, items: seq<Json>)
    returns (page: PageResult, head': Head)
    requires AllReadable(spec, before) && AllReadable(spec, items) && Usable(spec, checkpoint)
    requires IsHead(spec, before, head) && PageHolds(spec, payload, items)
    ensures FilterPage(spec, checkpoint, head, payload) == Ok((page, head'))
    ensures IsHead(spec, before + items, head')
    ensures page.rawItemCount == |items|
    ensures page.stopAfterPage == (checkpoint.Some? && items != [] && AllOlder(spec, checkpoint, items))
    ensures ItemsIn(spec, page.filteredPayload) == FreshItems(spec, checkpoint, items)
  {
    var scan := ScanItems(spec, checkpoint, Scan(head, [], checkpoint.Some? && items != []), items);
    ScanReadable(spec, checkpoint, before, head, checkpoint.Some? && items != [], items);
    FreshItemsAreMembers(spec, checkpoint, items);
    FilteredPayloadHolds(spec, payload, items, FreshItems(spec, checkpoint, items));
    var wasObject := PageIsListed(spec, payload, items);
    FilterPageIs(spec, checkpoint, head, payload, items, wasObject);
    page := PageResult(SetItems(spec, payload, scan.value.included, wasObject).value, |items|, scan.value.allOlder);
    head' := scan.value.head;
  }

  /** Once a page is all older, so is everything after it. */
  lemma RestIsOlder(spec: Spec, checkpoint: Option<CheckpointState>, feed: seq<Json>, m: nat)
    requires AllReadable(spec, feed) && Descending(spec, feed) && Usable(spec, checkpoint) && checkpoint.Some?
    requires 0 < m <= |feed| && Older(spec, checkpoint, feed[m - 1])
    ensures AllOlder(spec, checkpoint, feed[m..])
  {
    var tail := feed[m..];
    forall j | 0 <= j < |tail| ensures Older(spec, checkpoint, tail[j]) {
      assert tail[j] == feed[m + j];
      assert ReadableItem(spec, feed[m + j]) && ReadableItem(spec, feed[m - 1]);
      CmpOrders(spec, Mark(spec, feed[m + j]), Mark(spec, feed[m - 1]), checkpoint.value.mark);
    }
  }

  ghost predicate Settled(spec: Spec, checkpoint: Option<CheckpointState>, feed: seq<Json>, r: Outcome) {
    && r.Fetched?
    && ItemsInAll(spec, r.payloads) == FreshItems(spec, checkpoint, feed)
    && r.pending == PendingOf(spec, checkpoint, feed)
  }

  /** The loop invariant: what has been read is `feed[..done]`. */
  ghost predicate HasRead(spec: Spec, checkpoint: Option<CheckpointState>, feed: seq<Json>, done: nat, head: Head,
                          payloads: seq<Json>) {
    && done <= |feed| && IsHead(spec, feed[..done], head)
    && ItemsInAll(spec, payloads) == FreshItems(spec, checkpoint, feed[..done])
  }

  lemma PayloadsExtend(spec: Spec, checkpoint: Option<CheckpointState>, feed: seq<Json>, done: nat, m: nat,
                       payloads: seq<Json>, payload: Json)
    requires done <= m <= |feed|
    requires ItemsInAll(spec, payloads) == FreshItems(spec, checkpoint, feed[..done])
    requires ItemsIn(spec, payload) == FreshItems(spec, checkpoint, feed[done..m])
    ensures ItemsInAll(spec, payloads + [payload]) == FreshItems(spec, checkpoint, feed[..m])
  {
    var all := payloads + [payload];
    assert all[..|all| - 1] == payloads;
    FreshItemsSplit(spec, checkpoint, feed[..done], feed[done..m]);
    assert feed[..m] == feed[..done] + feed[done..m];
  }

  lemma ReadableCut(spec: Spec, feed: seq<Json>, done: nat, m: nat)
    requires AllReadable(spec, feed) && done <= m <= |feed|
    ensures feed[..m] == feed[..done] + feed[done..m]
    ensures AllReadable(spec, feed[..done]) && AllReadable(spec, feed[done..m])
  {
    assert forall j :: 0 <= j < m - done ==> feed[done..m][j] == feed[done + j];
  }

  lemma PageRead(spec: Spec, checkpoint: Option<CheckpointState>, feed: seq<Json>, done: nat, m: nat, head: Head,
                 payloads: seq<Json>, payload: Json)
    returns (page: PageResult, head': Head)
    requires AllReadable(spec, feed) && Usable(spec, checkpoint)
    requires done <= m <= |feed| && HasRead(spec, checkpoint, feed, done, head, payloads)
    requires PageHolds(spec, payload, feed[done..m])
    ensures FilterPage(spec, checkpoint, head, payload) == Ok((page, head'))
    ensures HasRead(spec, checkpoint, feed, m, head', payloads + [page.filteredPayload])
    ensures page.rawItemCount == m - done
    ensures page.stopAfterPage == (checkpoint.Some? && done < m && AllOlder(spec, checkpoint, feed[done..m]))
  {
    ReadableCut(spec, feed, done, m);
    page, head' := FilterPageReadable(spec, checkpoint, feed[..done], head, payload, feed[done..m]);
    PayloadsExtend(spec, checkpoint, feed, done, m, payloads, page.filteredPayload);
  }

  /** A loop that may stop here has read enough. */
  lemma ReadEnough(spec: Spec, checkpoint: Option<CheckpointState>, feed: seq<Json>, m: nat, head: Head,
                   payloads: seq<Json>, requests: seq<Option<Json>>)
    requires AllReadable(spec, feed) && Descending(spec, feed) && Usable(spec, checkpoint)
    requires HasRead(spec, checkpoint, feed, m, head, payloads)
    requires m == |feed| || (checkpoint.Some? && 0 < m && Older(spec, checkpoint, feed[m - 1]))
    ensures Settled(spec, checkpoint, feed, Conclude(spec, checkpoint, head, payloads, requests))
  {
    assert feed == feed[..m] + feed[m..];
    FreshItemsSplit(spec, checkpoint, feed[..m], feed[m..]);
    if m < |feed| {
      RestIsOlder(spec, checkpoint, feed, m);
    }
    OlderItemsAreNotFresh(spec, checkpoint, feed[m..]);
    PrefixSettlesPending(spec, checkpoint, feed, m, head, payloads, requests);
  }

  /** What a served page calls for once it has been read up to `feed[..m]`: an end that settles
      the fetch, or a next request that goes on serving the feed. */
  ghost predicate GoesOn(spec: Spec, checkpoint: Option<CheckpointState>, pagination: Pagination,
                         responses: seq<Response>, i: nat,
                         feed: seq<Json>, m: nat, round: Round)
    requires m <= |feed|
  {
    match round
    case Finished(outcome) => Settled(spec, checkpoint, feed, outcome)
    case Continue(next) =>
      && HasRead(spec, checkpoint, feed, m, next.head, next.payloads)
      && Serves(spec, checkpoint, pagination, next.current, responses, i + 1, feed[m..])
  }

  /** What a served page says of the next step: it was the last, or all older, or leads on. */
  lemma ServedPageSays(spec: Spec, checkpoint: Option<CheckpointState>, pagination: Pagination, current: Option<Json>,
                       responses: seq<Response>, i: nat, feed: seq<Json>, done: nat, m: nat)
    requires i < |responses| && responses[i].Page? && done <= m <= |feed|
    requires ServesPage(spec, checkpoint, pagination, current, responses, i, feed[done..], m - done)
    ensures done == m ==> m == |feed|
    ensures done < m && checkpoint.Some? && AllOlder(spec, checkpoint, feed[done..m]) ==>
              Older(spec, checkpoint, feed[m - 1])
    ensures done < m && !(checkpoint.Some? && AllOlder(spec, checkpoint, feed[done..m])) ==>
              var move := Advance(spec, pagination, current, responses[i].payload);
              && !move.Broken? && (move.StopHere? ==> m == |feed|)
              && (move.MoveTo? ==>
                    Serves(spec, checkpoint, pagination, Some(move.value), responses, i + 1, feed[m..]))
  {
    assert feed[done..][..m - done] == feed[done..m] && feed[done..][m - done..] == feed[m..];
    if done < m && checkpoint.Some? && AllOlder(spec, checkpoint, feed[done..m]) {
      assert Older(spec, checkpoint, feed[done..m][m - done - 1]);
    } else if done < m {
      ServedPageLeads(spec, checkpoint, pagination, current, responses, i, feed[done..], m - done);
    }
  }

  lemma AfterServedPage(spec: Spec, checkpoint: Option<CheckpointState>, pagination: Pagination, p: Progress,
                        responses: seq<Response>, i: nat, feed: seq<Json>, done: nat, m: nat, page: PageResult,
                        head: Head)
    requires AllReadable(spec, feed) && Descending(spec, feed) && Usable(spec, checkpoint)
    requires i < |responses| && responses[i].Page? && done <= m <= |feed|
    requires HasRead(spec, checkpoint, feed, m, head, p.payloads + [page.filteredPayload])
    requires page.rawItemCount == m - done
    requires page.stopAfterPage == (checkpoint.Some? && done < m && AllOlder(spec, checkpoint, feed[done..m]))
    requires ServesPage(spec, checkpoint, pagination, p.current, responses, i, feed[done..], m - done)
    ensures GoesOn(spec, checkpoint, pagination, responses, i, feed, m,
                   AfterPage(spec, checkpoint, pagination, p, responses[i].payload, page, head))
  {
    ServedPageSays(spec, checkpoint, pagination, p.current, responses, i, feed, done, m);
    if AfterPage(spec, checkpoint, pagination, p, responses[i].payload, page, head).Finished? {
      ReadEnough(spec, checkpoint, feed, m, head, p.payloads + [page.filteredPayload], p.requests + [p.current]);
    }
  }

  lemma TurnOnServedPage(spec: Spec, checkpoint: Option<CheckpointState>, pagination: Pagination, p: Progress,
                         responses: seq<Response>, i: nat, feed: seq<Json>, done: nat, m: nat)
    requires AllReadable(spec, feed) && Descending(spec, feed) && Usable(spec, checkpoint)
    requires i < |responses| && responses[i].Page? && done <= m <= |feed|
    requires HasRead(spec, checkpoint, feed, done, p.head, p.payloads)
    requires ServesPage(spec, checkpoint, pagination, p.current, responses, i, feed[done..], m - done)
    ensures GoesOn(spec, checkpoint, pagination, responses, i, feed, m,
                   Turn(spec, checkpoint, pagination, p, responses[i]))
  {
    assert feed[done..][..m - done] == feed[done..m];
    var page, head := PageRead(spec, checkpoint, feed, done, m, p.head, p.payloads, responses[i].payload);
    AfterServedPage(spec, checkpoint, pagination, p, responses, i, feed, done, m, page, head);
  }

  lemma ServedTurn(spec: Spec, checkpoint: Option<CheckpointState>, pagination: Pagination, p: Progress,
                   responses: seq<Response>, i: nat, feed: seq<Json>, done: nat) returns (m: nat)
    requires AllReadable(spec, feed) && Descending(spec, feed) && Usable(spec, checkpoint)
    requires HasRead(spec, checkpoint, feed, done, p.head, p.payloads)
    requires Serves(spec, checkpoint, pagination, p.current, responses, i, feed[done..])
    ensures i < |responses| && m <= |feed|
    ensures GoesOn(spec, checkpoint, pagination, responses, i, feed, m,
                   Turn(spec, checkpoint, pagination, p, responses[i]))
  {
    var rest := feed[done..];
    var n :| 0 <= n <= |rest| && ServesPage(spec, checkpoint, pagination, p.current, responses, i, rest, n);
    m := done + n;
    TurnOnServedPage(spec, checkpoint, pagination, p, responses, i, feed, done, m);
  }

  lemma {:induction false} ServedRounds(spec: Spec, checkpoint: Option<CheckpointState>, pagination: Pagination,
                                        round: Round, responses: seq<Response>, i: nat, feed: seq<Json>, m: nat)
    requires AllReadable(spec, feed) && Descending(spec, feed) && Usable(spec, checkpoint)
    requires m <= |feed| && GoesOn(spec, checkpoint, pagination, responses, i, feed, m, round)
    ensures Settled(spec, checkpoint, feed, FetchOn(spec, checkpoint, pagination, round, responses, i))
    decreases |responses| - i
  {
    if round.Continue? {
      var m' := ServedTurn(spec, checkpoint, pagination, round.next, responses, i + 1, feed, m);
      ServedRounds(spec, checkpoint, pagination, Turn(spec, checkpoint, pagination, round.next, responses[i + 1]),
                   responses, i + 1, feed, m');
    }
  }

  /** Page-cut independence: for a descending feed, however it is cut into non-empty pages and
      however far the API could still be read, the fetch includes exactly the items past the
      checkpoint, in feed order, and its pending checkpoint is the feed's own. */
  lemma PageCutIndependence(spec: Spec, checkpoint: Option<CheckpointState>, stored: Stored, pagination: Pagination,
                            responses: seq<Response>, feed: seq<Json>)
    requires ParseHeadWatermarkCheckpoint(stored) == Ok(checkpoint)
    requires AllReadable(spec, feed) && Descending(spec, feed) && Usable(spec, checkpoint)
    requires Serves(spec, checkpoint, pagination, InitialValue(pagination), responses, 0, feed)
    ensures var r := FetchCycle(spec, stored, pagination, responses);
            && r.Fetched?
            && ItemsInAll(spec, r.payloads) == FreshItems(spec, checkpoint, feed)
            && r.pending == PendingOf(spec, checkpoint, feed)
  {
    assert feed[..0] == [] && feed[0..] == feed;
    var p := Begin(pagination);
    var m := ServedTurn(spec, checkpoint, pagination, p, responses, 0, feed, 0);
    ServedRounds(spec, checkpoint, pagination, Turn(spec, checkpoint, pagination, p, responses[0]), responses, 0, feed,
                 m);
  }

  /** A payload that has the items at a path. */
  function Wrapped(path: seq<string>, items: seq<Json>): Json {
    if path == [] then JArray(items) else JObject(map[path[0] := Wrapped(path[1..], items)])
  }

  function PageOf(spec: Spec, items: seq<Json>): Json {
    Wrapped(if spec.itemsPathIsRoot then [] else spec.itemsPath, items)
  }

  lemma {:induction false} WrappedHolds(path: seq<string>, items: seq<Json>)
    ensures ResolveByPath(Wrapped(path, items), path) == JArray(items)
    ensures path != [] ==> SetAtPath(Wrapped(path, items), path, JNull).Ok?
    decreases |path|
  {
    if path != [] {
      WrappedHolds(path[1..], items);
    }
  }

  /** What a compiled configuration satisfies: items below the root have a path, and offsets are
      numbers. */
  predicate WellConfigured(spec: Spec, pagination: Pagination) {
    && (spec.itemsPathIsRoot || spec.itemsPath != [])
    && (pagination.Offset? ==> pagination.start.JNumber? && pagination.increment.JNumber?)
  }

  function WholeFeed(spec: Spec, feed: seq<Json>): seq<Response> {
    [Page(PageOf(spec, feed)), Page(PageOf(spec, []))]
  }

  lemma PageOfHolds(spec: Spec, pagination: Pagination, items: seq<Json>)
    requires WellConfigured(spec, pagination)
    ensures PageHolds(spec, PageOf(spec, items), items)
  {
    WrappedHolds(if spec.itemsPathIsRoot then [] else spec.itemsPath, items);
  }

  lemma EmptyPageEnds(spec: Spec, checkpoint: Option<CheckpointState>, pagination: Pagination, current: Option<Json>,
                      feed: seq<Json>)
    requires WellConfigured(spec, pagination)
    ensures Serves(spec, checkpoint, pagination, current, WholeFeed(spec, feed), 1, [])
  {
    PageOfHolds(spec, pagination, []);
    var none: seq<Json> := [];
    assert none[..0] == none;
    assert ServesPage(spec, checkpoint, pagination, current, WholeFeed(spec, feed), 1, none, 0);
  }

  /** Every feed can be served under every configuration: as one page and an empty one. */
  lemma AnyFeedCanBeServed(spec: Spec, checkpoint: Option<CheckpointState>, pagination: Pagination, feed: seq<Json>)
    requires WellConfigured(spec, pagination)
    ensures Serves(spec, checkpoint, pagination, InitialValue(pagination), WholeFeed(spec, feed), 0, feed)
  {
    var responses, current := WholeFeed(spec, feed), InitialValue(pagination);
    assert feed[..|feed|] == feed && feed[|feed|..] == [];
    PageOfHolds(spec, pagination, feed);
    match pagination {
      case Cursor(path) =>
        EmptyPageEnds(spec, checkpoint, pagination, Some(ResolveByPath(responses[0].payload, path)), feed);
      case Offset(start, increment) =>
        EmptyPageEnds(spec, checkpoint, pagination, Some(JNumber(start.number + increment.number)), feed);
    }
    assert ServesPage(spec, checkpoint, pagination, current, responses, 0, feed, |feed|);
  }

  function OffsetAt(start: real, increment: real, k: nat): real {
    if k == 0 then start else OffsetAt(start, increment, k - 1) + increment
  }

  predicate CountsUp(start: real, increment: real, requests: seq<Option<Json>>) {
    forall k :: 0 <= k < |requests| ==> requests[k] == Some(JNumber(OffsetAt(start, increment, k)))
  }

  /** Offset paging asks for start, start + increment, and so on, once each. */
  lemma {:induction false} OffsetsAdvance(spec: Spec, checkpoint: Option<CheckpointState>, start: real, increment: real,
                                          p: Progress, responses: seq<Response>, i: nat)
    requires p.current == Some(JNumber(OffsetAt(start, increment, |p.requests|)))
    requires CountsUp(start, increment, p.requests)
    ensures CountsUp(start, increment,
                     FetchPages(spec, checkpoint, Offset(JNumber(start), JNumber(increment)), p, responses, i).requests)
    decreases |responses| - i
  {
    var turn := Turn(spec, checkpoint, Offset(JNumber(start), JNumber(increment)), p, ResponseAt(responses, i));
    TurnRequests(spec, checkpoint, Offset(JNumber(start), JNumber(increment)), p, ResponseAt(responses, i));
    assert CountsUp(start, increment, p.requests + [p.current]);
    if turn.Continue? && i < |responses| {
      OffsetsAdvance(spec, checkpoint, start, increment, turn.next, responses, i + 1);
    }
  }

  lemma TurnRequests(spec: Spec, checkpoint: Option<CheckpointState>, pagination: Pagination, p: Progress,
                     response: Response)
    ensures match Turn(spec, checkpoint, pagination, p, response)
            case Finished(outcome) => outcome.requests == p.requests + [p.current]
            case Continue(next) =>
              && next.requests == p.requests + [p.current]
              && (pagination.Offset? && p.current.Some? && p.current.value.JNumber? && pagination.increment.JNumber? ==>
                    next.current == Some(JNumber(p.current.value.number + pagination.increment.number)))
  {
  }
}
