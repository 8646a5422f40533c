/** Watermark values and the stored head-watermark checkpoint. */
module Watermarks {
  import opened Common

  datatype WatermarkType = NumberMark | StringMark | DateTimeMark

  /** `time.Parse(time.RFC3339, _)`: the instant a text denotes (section 5.6 of RFC 3339), if any. */
  type Clock = string -> Option<int>

  predicate Readable(kind: WatermarkType, clock: Clock, v: Json) {
    match kind
    case NumberMark => v.JNumber?
    case StringMark => v.JString?
    case DateTimeMark => v.JString? && clock(v.text).Some?
  }

  /** -1, 0 or 1 as `left` lies before, at or after `right`. */
  function CompareWatermarkValues(kind: WatermarkType, clock: Clock, left: Json, right: Json): Result<int> {
    match kind
    case NumberMark =>
      if !left.JNumber? || !right.JNumber? then Failed
      else Ok(if left.number < right.number then -1 else if left.number > right.number then 1 else 0)
    case StringMark =>
      if !left.JString? || !right.JString? then Failed
      else Ok(CompareStrings(left.text, right.text))
    case DateTimeMark =>
      if !left.JString? || !right.JString? then Failed
      else
        match (clock(left.text), clock(right.text))
        case (Some(l), Some(r)) => Ok(if l < r then -1 else if l > r then 1 else 0)
        case _ => Failed
  }

  /** The comparison answers exactly when both sides can be read in the declared kind. */
  lemma ComparesReadable(kind: WatermarkType, clock: Clock, a: Json, b: Json)
    ensures CompareWatermarkValues(kind, clock, a, b).Ok? <==> Readable(kind, clock, a) && Readable(kind, clock, b)
    ensures Readable(kind, clock, a) && Readable(kind, clock, b) ==>
              CompareWatermarkValues(kind, clock, b, a) == Ok(-CompareWatermarkValues(kind, clock, a, b).value)
    ensures Readable(kind, clock, a) ==> CompareWatermarkValues(kind, clock, a, a) == Ok(0)
    ensures CompareWatermarkValues(kind, clock, a, b).Ok? ==> -1 <= CompareWatermarkValues(kind, clock, a, b).value <= 1
  {
    if a.JString? && b.JString? {
      CompareStringsOrders(a.text, b.text);
      CompareStringsOrders(a.text, a.text);
    } else if a.JString? {
      CompareStringsOrders(a.text, a.text);
    }
  }

  /** On readable marks -1 means before: the smaller number, the earlier text in the dictionary, the
      earlier instant; 0 means the same number, text or instant. */
  lemma ComparesInOrder(kind: WatermarkType, clock: Clock, a: Json, b: Json)
    requires Readable(kind, clock, a) && Readable(kind, clock, b)
    ensures var c := CompareWatermarkValues(kind, clock, a, b).value;
            && (kind == NumberMark ==>
                  (c == -1 <==> a.number < b.number) && (c == 0 <==> a.number == b.number))
            && (kind == StringMark ==> (c == -1 <==> Before(a.text, b.text)) && (c == 0 <==> a.text == b.text))
            && (kind == DateTimeMark ==>
                  (c == -1 <==> clock(a.text).value < clock(b.text).value) &&
                  (c == 0 <==> clock(a.text) == clock(b.text)))
  {
    ComparesReadable(kind, clock, a, b);
    if kind == StringMark {
      NegativeIsBefore(a.text, b.text);
      CompareStringsOrders(a.text, b.text);
    }
  }

  /** `a` is not after `b`. Within one kind this is a total preorder. */
  predicate AtMost(kind: WatermarkType, clock: Clock, a: Json, b: Json) {
    CompareWatermarkValues(kind, clock, a, b).Ok? && CompareWatermarkValues(kind, clock, a, b).value <= 0
  }

  lemma AtMostTransitive(kind: WatermarkType, clock: Clock, a: Json, b: Json, c: Json)
    requires AtMost(kind, clock, a, b) && AtMost(kind, clock, b, c)
    ensures AtMost(kind, clock, a, c)
  {
    if kind == StringMark {
      CompareStringsTransitive(a.text, b.text, c.text);
    }
  }

  predicate SameMark(kind: WatermarkType, clock: Clock, a: Json, b: Json) {
    CompareWatermarkValues(kind, clock, a, b) == Ok(0)
  }

  /** Marks that compare equal compare alike with everything else. */
  lemma SameMarkComparesAlike(kind: WatermarkType, clock: Clock, a: Json, b: Json, c: Json)
    requires SameMark(kind, clock, a, b) && Readable(kind, clock, c)
    ensures CompareWatermarkValues(kind, clock, a, c) == CompareWatermarkValues(kind, clock, b, c)
  {
    if kind == StringMark {
      CompareStringsOrders(a.text, b.text);
    }
  }

  // ---- the stored checkpoint ----

  /** The checkpoint as the filter uses it: the watermark and the keys already seen there. */
  datatype CheckpointState = CheckpointState(kind: WatermarkType, mark: Json, boundaryKeys: set<string>)

  /** The text column of a stored checkpoint, decoded as far as `json.Unmarshal` goes. */
  datatype Stored = Blank | Malformed | Decoded(json: Json)

  function KindName(kind: WatermarkType): string {
    match kind
    case NumberMark => "number"
    case StringMark => "string"
    case DateTimeMark => "datetime"
  }

  function KindOf(name: string): Option<WatermarkType> {
    if name == "number" then Some(NumberMark)
    else if name == "string" then Some(StringMark)
    else if name == "datetime" then Some(DateTimeMark)
    else None
  }

  const STRATEGY := "head-watermark"

  function Texts(keys: seq<string>): seq<Json> {
    seq(|keys|, i requires 0 <= i < |keys| => JString(keys[i]))
  }

  function BuildHeadWatermarkCheckpoint(state: CheckpointState): Stored {
    Decoded(JObject(map[
      "strategy" := JString(STRATEGY),
      "watermark_type" := JString(KindName(state.kind)),
      "watermark_value" := state.mark,
      "boundary_keys" := JArray(Texts(SortedKeys(state.boundaryKeys)))]))
  }

  /** `Ok(None)` is a checkpoint to ignore: absent, or not of this strategy. */
  function ParseHeadWatermarkCheckpoint(raw: Stored): Result<Option<CheckpointState>> {
    match raw
    case Blank => Ok(None)
    case Malformed => Failed
    case Decoded(json) =>
      if !json.JObject? then Ok(None)
      else
        var m := json.fields;
        if "strategy" !in m || !m["strategy"].JString? then Ok(None)
        else if ToLower(TrimSpace(m["strategy"].text)) != STRATEGY then Ok(None)
        else if "watermark_type" !in m || !m["watermark_type"].JString? then Failed
        else
          match KindOf(ToLower(TrimSpace(m["watermark_type"].text)))
          case None => Failed
          case Some(kind) =>
            var mark := if "watermark_value" in m then m["watermark_value"] else JNull;
            if "boundary_keys" !in m then Ok(Some(CheckpointState(kind, mark, {})))
            else if !m["boundary_keys"].JArray? then Failed
            else
              var list := m["boundary_keys"].items;
              if exists i :: 0 <= i < |list| && !list[i].JString? then Failed
              else Ok(Some(CheckpointState(kind, mark, set i | 0 <= i < |list| :: list[i].text)))
  }

  lemma TrimLowerOfConstant(s: string)
    requires s != [] && !IsSpace(s[0]) && !IsSpace(s[|s| - 1])
    requires forall i :: 0 <= i < |s| ==> !('A' <= s[i] <= 'Z')
    ensures ToLower(TrimSpace(s)) == s
  {
  }

  function CheckpointFields(state: CheckpointState): map<string, Json> {
    BuildHeadWatermarkCheckpoint(state).json.fields
  }

  lemma CheckpointFieldValues(state: CheckpointState)
    ensures var m := CheckpointFields(state);
            && "strategy" in m && m["strategy"] == JString(STRATEGY)
            && "watermark_type" in m && m["watermark_type"] == JString(KindName(state.kind))
            && "watermark_value" in m && m["watermark_value"] == state.mark
            && "boundary_keys" in m && m["boundary_keys"] == JArray(Texts(SortedKeys(state.boundaryKeys)))
  {
    assert |"strategy"| == 8 && |"watermark_type"| == 14 && |"watermark_value"| == 15 && |"boundary_keys"| == 13;
  }

  lemma NamesSurviveParsing(kind: WatermarkType)
    ensures ToLower(TrimSpace(STRATEGY)) == STRATEGY
    ensures KindOf(ToLower(TrimSpace(KindName(kind)))) == Some(kind)
  {
    TrimLowerOfConstant(STRATEGY);
    TrimLowerOfConstant(KindName(kind));
  }

  lemma TextsSurviveParsing(sorted: seq<string>, keys: set<string>)
    requires forall k :: k in sorted <==> k in keys
    ensures var list := Texts(sorted);
            && (forall i :: 0 <= i < |list| ==> list[i].JString?)
            && (set i | 0 <= i < |list| :: list[i].text) == keys
  {
    var list := Texts(sorted);
    assert forall i :: 0 <= i < |list| ==> list[i] == JString(sorted[i]);
    var back := set i | 0 <= i < |list| :: list[i].text;
    forall k | k in keys ensures k in back {
      var i :| 0 <= i < |sorted| && sorted[i] == k;
      assert list[i].text == k;
    }
  }

  lemma ParsesItsFields(m: map<string, Json>, kind: WatermarkType, mark: Json, list: seq<Json>, keys: set<string>)
    requires "strategy" in m && m["strategy"] == JString(STRATEGY)
    requires "watermark_type" in m && m["watermark_type"] == JString(KindName(kind))
    requires "watermark_value" in m && m["watermark_value"] == mark
    requires "boundary_keys" in m && m["boundary_keys"] == JArray(list)
    requires forall i :: 0 <= i < |list| ==> list[i].JString?
    requires keys == set i | 0 <= i < |list| :: list[i].text
    ensures ParseHeadWatermarkCheckpoint(Decoded(JObject(m))) == Ok(Some(CheckpointState(kind, mark, keys)))
  {
    NamesSurviveParsing(kind);
  }

  /** Building and then parsing gives back the type, the value and the boundary-key set. */
  lemma CheckpointRoundTrip(state: CheckpointState)
    ensures ParseHeadWatermarkCheckpoint(BuildHeadWatermarkCheckpoint(state)) == Ok(Some(state))
  {
    var sorted := SortedKeys(state.boundaryKeys);
    CheckpointFieldValues(state);
    TextsSurviveParsing(sorted, state.boundaryKeys);
    ParsesItsFields(CheckpointFields(state), state.kind, state.mark, Texts(sorted), state.boundaryKeys);
  }
}
