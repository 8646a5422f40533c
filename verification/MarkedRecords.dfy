/** The records a payload holds under a node, and the keys they hand to their parent. */
module MarkedRecords {
  import opened Common
  import opened Values
  import opened MarkedNodes

  /** What a node reads: the elements of a list where it expects one, otherwise the value itself. */
  function Listed(node: Node, raw: Json): seq<Json> {
    if node.isArray && raw.JArray? then raw.items else [raw]
  }

  /** An object directly in the value. */
  predicate RecordIn(node: Node, raw: Json, record: Json) {
    record.JObject? && record in Listed(node, raw)
  }

  /** An object whose key field is there and not null. */
  predicate HasKey(node: Node, record: Json) {
    record.JObject? && node.pkField in record.fields && record.fields[node.pkField] != JNull
  }

  /** The item has a key, and no item before it has a key with that text. */
  predicate FirstWithKey(format: Json -> string, node: Node, items: seq<Json>, p: nat)
    requires p < |items|
  {
    && HasKey(node, items[p])
    && forall q: nat :: q < p && HasKey(node, items[q]) ==>
         format(items[q].fields[node.pkField]) != format(items[p].fields[node.pkField])
  }

  /** These are the keys of the items at these positions: in order, the first item for each text. */
  predicate Positions(format: Json -> string, node: Node, items: seq<Json>, keys: seq<Json>, at: seq<nat>) {
    && |at| == |keys|
    && (forall i, j :: 0 <= i < j < |at| ==> at[i] < at[j])
    && (forall i :: 0 <= i < |at| ==>
          at[i] < |items| && FirstWithKey(format, node, items, at[i]) && keys[i] == items[at[i]].fields[node.pkField])
    && (forall p: nat :: p < |items| && FirstWithKey(format, node, items, p) ==> p in at)
  }

  /** The keys of the records in the value, each text once, in order of first occurrence. */
  ghost predicate ListsKeys(format: Json -> string, node: Node, raw: Json, keys: seq<Json>) {
    exists at: seq<nat> :: Positions(format, node, Listed(node, raw), keys, at)
  }

  lemma {:induction false} ItemKeysHaveText(format: Json -> string, node: Node, items: seq<Json>, text: string)
    ensures HasText(format, ItemKeys(node, items), text) <==>
            exists q: nat :: q < |items| && HasKey(node, items[q]) && format(items[q].fields[node.pkField]) == text
    decreases |items|
  {
    if items != [] {
      var front, last := items[..|items| - 1], items[|items| - 1];
      ItemKeysHaveText(format, node, front, text);
      assert forall q: nat :: q < |front| ==> front[q] == items[q];
      if HasKey(node, last) {
        OneMoreHasText(format, ItemKeys(node, front), last.fields[node.pkField], text);
      }
    }
  }

  lemma OneMoreHasText(format: Json -> string, values: seq<Json>, last: Json, text: string)
    ensures HasText(format, values + [last], text) <==> HasText(format, values, text) || format(last) == text
  {
    assert last in values + [last];
    if HasText(format, values, text) {
      var v :| v in values && format(v) == text;
      assert v in values + [last];
    }
  }

  lemma FirstInFront(format: Json -> string, node: Node, items: seq<Json>, n: nat, p: nat)
    requires p < n <= |items|
    ensures FirstWithKey(format, node, items[..n], p) <==> FirstWithKey(format, node, items, p)
  {
    assert forall q: nat :: q < n ==> items[..n][q] == items[q];
  }

  lemma UniqueOneMore(format: Json -> string, values: seq<Json>, last: Json)
    ensures Unique(format, values + [last]) ==
            Unique(format, values) + (if HasText(format, values, format(last)) then [] else [last])
  {
    assert (values + [last])[..|values + [last]| - 1] == values;
  }

  lemma FirstIsNew(format: Json -> string, node: Node, front: seq<Json>, last: Json)
    requires HasKey(node, last)
    ensures FirstWithKey(format, node, front + [last], |front|) <==>
            !HasText(format, ItemKeys(node, front), format(last.fields[node.pkField]))
  {
    var items := front + [last];
    ItemKeysHaveText(format, node, front, format(last.fields[node.pkField]));
    assert items[|front|] == last && forall q: nat :: q < |front| ==> front[q] == items[q];
  }

  lemma OneMoreKey(node: Node, front: seq<Json>, last: Json)
    ensures ItemKeys(node, front + [last]) ==
            if HasKey(node, last) then ItemKeys(node, front) + [last.fields[node.pkField]] else ItemKeys(node, front)
  {
    assert (front + [last])[..|front|] == front;
  }

  /** The last item adds its key exactly when it is the first with it. */
  lemma LastAddsItsKey(format: Json -> string, node: Node, front: seq<Json>, last: Json)
    ensures Unique(format, ItemKeys(node, front + [last])) ==
            Unique(format, ItemKeys(node, front)) +
            (if FirstWithKey(format, node, front + [last], |front|) then [last.fields[node.pkField]] else [])
  {
    OneMoreKey(node, front, last);
    if HasKey(node, last) {
      FirstIsNew(format, node, front, last);
      UniqueOneMore(format, ItemKeys(node, front), last.fields[node.pkField]);
    } else {
      assert (front + [last])[|front|] == last;
    }
  }

  lemma {:induction false} KeyPositions(format: Json -> string, node: Node, items: seq<Json>) returns (at: seq<nat>)
    ensures Positions(format, node, items, Unique(format, ItemKeys(node, items)), at)
    decreases |items|
  {
    if items == [] {
      at := [];
    } else {
      var n := |items| - 1;
      var before := KeyPositions(format, node, items[..n]);
      assert items == items[..n] + [items[n]];
      LastAddsItsKey(format, node, items[..n], items[n]);
      PositionsGrow(format, node, items, Unique(format, ItemKeys(node, items[..n])), before);
      at := if FirstWithKey(format, node, items, n) then before + [n] else before;
    }
  }

  lemma PositionsGrow(format: Json -> string, node: Node, items: seq<Json>, keys: seq<Json>, before: seq<nat>)
    requires items != [] && Positions(format, node, items[..|items| - 1], keys, before)
    ensures var n := |items| - 1;
            if FirstWithKey(format, node, items, n)
            then Positions(format, node, items, keys + [items[n].fields[node.pkField]], before + [n])
            else Positions(format, node, items, keys, before)
  {
    var n := |items| - 1;
    var front := items[..n];
    forall p: nat | p < n ensures FirstWithKey(format, node, front, p) <==> FirstWithKey(format, node, items, p) {
      FirstInFront(format, node, items, n, p);
    }
    if FirstWithKey(format, node, items, n) {
      var at := before + [n];
      forall p: nat | p < |items| && FirstWithKey(format, node, items, p) ensures p in at {
        assert p < n ==> p in before;
        assert at[|before|] == n;
      }
    }
  }

  /** A parent refers to what it holds under a node by the keys of all the records there, each text
      once and in the order in which the payload gives them first. */
  lemma RefKeysListKeys(format: Json -> string, node: Node, raw: Json)
    ensures ListsKeys(format, node, raw, RefKeys(format, node, raw))
  {
    if node.isArray && (raw.JArray? || raw.JObject?) {
      var at := KeyPositions(format, node, Listed(node, raw));
    } else if HasKey(node, raw) {
      assert FirstWithKey(format, node, [raw], 0);
      assert 0 in [0 as nat];
      assert RefKeys(format, node, raw) == [raw.fields[node.pkField]];
      assert Positions(format, node, Listed(node, raw), [raw.fields[node.pkField]], [0]);
    } else {
      assert RefKeys(format, node, raw) == [] && Listed(node, raw) == [raw];
      assert Positions(format, node, Listed(node, raw), [], []);
    }
  }

  /** A text is that of a key handed up exactly when some record has a non-null key with that text. */
  ghost predicate HandsUp(format: Json -> string, node: Node, raw: Json, text: string) {
    exists record ::
      RecordIn(node, raw, record) && HasKey(node, record) && format(record.fields[node.pkField]) == text
  }

  lemma {:induction false} HolderHasFirst(format: Json -> string, node: Node, items: seq<Json>, p: nat)
    returns (first: nat)
    requires p < |items| && HasKey(node, items[p])
    ensures first <= p && FirstWithKey(format, node, items, first)
    ensures format(items[first].fields[node.pkField]) == format(items[p].fields[node.pkField])
    decreases p
  {
    if FirstWithKey(format, node, items, p) {
      first := p;
    } else {
      var q: nat :| q < p && HasKey(node, items[q]) &&
          format(items[q].fields[node.pkField]) == format(items[p].fields[node.pkField]);
      first := HolderHasFirst(format, node, items, q);
    }
  }

  lemma ListedIsHandedUp(format: Json -> string, node: Node, raw: Json, keys: seq<Json>, at: seq<nat>, i: nat)
    requires Positions(format, node, Listed(node, raw), keys, at) && i < |keys|
    ensures HandsUp(format, node, raw, format(keys[i]))
  {
    var record := Listed(node, raw)[at[i]];
    assert RecordIn(node, raw, record);
  }

  lemma RecordIsListed(format: Json -> string, node: Node, raw: Json, keys: seq<Json>, at: seq<nat>, record: Json)
    returns (i: nat)
    requires Positions(format, node, Listed(node, raw), keys, at)
    requires RecordIn(node, raw, record) && HasKey(node, record)
    ensures i < |keys| && format(keys[i]) == format(record.fields[node.pkField])
  {
    var items := Listed(node, raw);
    var p: nat :| p < |items| && items[p] == record;
    var first := HolderHasFirst(format, node, items, p);
    i :| 0 <= i < |at| && at[i] == first;
  }

  lemma ListedKeysAre(format: Json -> string, node: Node, raw: Json, keys: seq<Json>, text: string)
    requires ListsKeys(format, node, raw, keys)
    ensures (exists i :: 0 <= i < |keys| && format(keys[i]) == text) <==> HandsUp(format, node, raw, text)
  {
    var at: seq<nat> :| Positions(format, node, Listed(node, raw), keys, at);
    if i :| 0 <= i < |keys| && format(keys[i]) == text {
      ListedIsHandedUp(format, node, raw, keys, at, i);
    }
    if HandsUp(format, node, raw, text) {
      var record :| RecordIn(node, raw, record) && HasKey(node, record) &&
          format(record.fields[node.pkField]) == text;
      var i := RecordIsListed(format, node, raw, keys, at, record);
    }
  }

  lemma RefKeysAre(format: Json -> string, node: Node, raw: Json, text: string)
    ensures HasText(format, RefKeys(format, node, raw), text) <==> HandsUp(format, node, raw, text)
  {
    var keys := RefKeys(format, node, raw);
    RefKeysListKeys(format, node, raw);
    ListedKeysAre(format, node, raw, keys, text);
    assert HasText(format, keys, text) <==> exists i :: 0 <= i < |keys| && format(keys[i]) == text;
  }
}
