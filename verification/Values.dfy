/** Lists of values without repeats, compared as `%v` prints them. */
module Values {
  import opened Common

  /** Keeps the first value of each text. */
  function Unique(format: Json -> string, values: seq<Json>): seq<Json> {
    if values == [] then []
    else
      var front, last := Unique(format, values[..|values| - 1]), values[|values| - 1];
      if HasText(format, values[..|values| - 1], format(last)) then front else front + [last]
  }

  predicate HasText(format: Json -> string, values: seq<Json>, text: string) {
    exists v :: v in values && format(v) == text
  }

  method UniqueValues(format: Json -> string, values: seq<Json>) returns (r: seq<Json>)
    ensures r == Unique(format, values)
  {
    var seen: set<string> := {};
    r := [];
    for i := 0 to |values|
      invariant r == Unique(format, values[..i])
      invariant seen == set v | v in values[..i] :: format(v)
    {
      assert values[..i + 1][..i] == values[..i];
      assert values[..i + 1] == values[..i] + [values[i]];
      var key := format(values[i]);
      if key !in seen {
        seen := seen + {key};
        r := r + [values[i]];
      }
    }
    assert values[..|values|] == values;
  }

  lemma {:induction false} UniqueDrawsFrom(format: Json -> string, values: seq<Json>)
    ensures forall v :: v in Unique(format, values) ==> v in values
    decreases |values|
  {
    if values != [] {
      UniqueDrawsFrom(format, values[..|values| - 1]);
    }
  }

  lemma {:induction false} UniqueCovers(format: Json -> string, values: seq<Json>, v: Json)
    requires v in values
    ensures exists w :: w in Unique(format, values) && format(w) == format(v)
    decreases |values|
  {
    var front, last := values[..|values| - 1], values[|values| - 1];
    assert values == front + [last];
    if u :| u in front && format(u) == format(v) {
      UniqueCovers(format, front, u);
      var w :| w in Unique(format, front) && format(w) == format(u);
      assert w in Unique(format, values);
    } else {
      assert v == last && last in Unique(format, values);
    }
  }

  predicate DistinctTexts(format: Json -> string, values: seq<Json>) {
    forall i, j :: 0 <= i < j < |values| ==> format(values[i]) != format(values[j])
  }

  lemma OneMoreText(format: Json -> string, values: seq<Json>, last: Json)
    requires DistinctTexts(format, values) && !HasText(format, values, format(last))
    ensures DistinctTexts(format, values + [last])
  {
    forall i | 0 <= i < |values| ensures format(values[i]) != format(last) { assert values[i] in values; }
  }

  lemma {:induction false} UniqueTexts(format: Json -> string, values: seq<Json>)
    ensures DistinctTexts(format, Unique(format, values))
    decreases |values|
  {
    if values != [] {
      var front, last := values[..|values| - 1], values[|values| - 1];
      UniqueTexts(format, front);
      UniqueDrawsFrom(format, front);
      if !HasText(format, front, format(last)) {
        assert !HasText(format, Unique(format, front), format(last));
        OneMoreText(format, Unique(format, front), last);
      }
    }
  }

  /** No value before this one has its text. */
  predicate FirstOfText(format: Json -> string, values: seq<Json>, p: nat)
    requires p < |values|
  {
    forall q: nat :: q < p ==> format(values[q]) != format(values[p])
  }

  /** These are the values at these positions: in order, the first of each text. */
  predicate AreFirsts(format: Json -> string, values: seq<Json>, kept: seq<Json>, at: seq<nat>) {
    && |at| == |kept|
    && (forall i, j :: 0 <= i < j < |at| ==> at[i] < at[j])
    && (forall i :: 0 <= i < |at| ==>
          at[i] < |values| && FirstOfText(format, values, at[i]) && kept[i] == values[at[i]])
    && (forall p: nat :: p < |values| && FirstOfText(format, values, p) ==> p in at)
  }

  lemma LastIsFirst(format: Json -> string, values: seq<Json>)
    requires values != []
    ensures var n := |values| - 1;
            FirstOfText(format, values, n) <==> !HasText(format, values[..n], format(values[n]))
  {
    var n := |values| - 1;
    if !HasText(format, values[..n], format(values[n])) {
      forall q: nat | q < n ensures format(values[q]) != format(values[n]) { assert values[..n][q] in values[..n]; }
    }
  }

  lemma FirstsGrow(format: Json -> string, values: seq<Json>, kept: seq<Json>, before: seq<nat>)
    requires values != [] && AreFirsts(format, values[..|values| - 1], kept, before)
    ensures var n := |values| - 1;
            if FirstOfText(format, values, n) then AreFirsts(format, values, kept + [values[n]], before + [n])
            else AreFirsts(format, values, kept, before)
  {
    var n := |values| - 1;
    var front := values[..n];
    assert forall q: nat :: q < n ==> front[q] == values[q];
    forall p: nat | p < n ensures FirstOfText(format, front, p) <==> FirstOfText(format, values, p) {
    }
    if FirstOfText(format, values, n) {
      var at := before + [n];
      forall p: nat | p < |values| && FirstOfText(format, values, p) ensures p in at {
        assert p < n ==> p in before;
        assert at[|before|] == n;
      }
    }
  }

  /** What is kept: of each text the first value, in order. */
  lemma {:induction false} UniqueKeepsFirsts(format: Json -> string, values: seq<Json>) returns (at: seq<nat>)
    ensures AreFirsts(format, values, Unique(format, values), at)
    decreases |values|
  {
    if values == [] {
      at := [];
    } else {
      var n := |values| - 1;
      var before := UniqueKeepsFirsts(format, values[..n]);
      LastIsFirst(format, values);
      FirstsGrow(format, values, Unique(format, values[..n]), before);
      at := if FirstOfText(format, values, n) then before + [n] else before;
    }
  }
}
