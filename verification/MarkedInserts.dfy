/** Extracting a marked payload into inserts. */
module MarkedInserts {
  import opened Common
  import opened Plans
  import opened Values
  import opened MarkedNodes

  /** A relation of a record whose links are still to be written, with the keys of its children. */
  datatype PendingLinks = PendingLinks(relation: Relation, keys: seq<Json>)

  /** The row with the values there are, in the order of the columns. */
  method BuildRow(columns: seq<string>, values: map<string, Value>) returns (row: PlanRow)
    ensures row == RowOf(columns, values)
  {
    row := InsertRow([], []);
    for i := 0 to |columns|
      invariant row == RowOf(columns[..i], values)
    {
      assert columns[..i + 1][..i] == columns[..i];
      if columns[i] in values {
        row := InsertRow(row.columns + [columns[i]], row.values + [values[columns[i]]]);
      }
    }
    assert columns[..|columns|] == columns;
  }

  method CollectScalars(scalars: seq<string>, fields: map<string, Json>) returns (values: map<string, Value>)
    ensures values == ScalarValues(scalars, fields)
  {
    values := map[];
    for i := 0 to |scalars|
      invariant values == ScalarValues(scalars[..i], fields)
    {
      if scalars[i] in fields {
        values := values[scalars[i] := Scalar(fields[scalars[i]])];
      }
    }
    assert scalars[..|scalars|] == scalars;
  }

  function PendingOf(format: Json -> string, node: Node, fields: map<string, Json>, n: nat): seq<PendingLinks>
    requires n <= |node.relations|
  {
    if n == 0 then []
    else WithLinks(node, n - 1, KeysUnder(format, node, fields, n - 1), PendingOf(format, node, fields, n - 1))
  }

  function WithLinks(node: Node, k: nat, keys: seq<Json>, pending: seq<PendingLinks>): seq<PendingLinks>
    requires k < |node.relations|
  {
    if keys != [] && IsLink(node, node.relations[k]) then pending + [PendingLinks(node.relations[k], keys)] else pending
  }

  /** What the keys under one relation add to the row or to the links of the record. */
  method TakeKeys(node: Node, k: nat, keys: seq<Json>, values: map<string, Value>, pending: seq<PendingLinks>)
    returns (values': map<string, Value>, pending': seq<PendingLinks>)
    requires k < |node.relations|
    ensures values' == WithReference(node, k, keys, values) && pending' == WithLinks(node, k, keys, pending)
  {
    values', pending' := values, pending;
    if keys != [] {
      var r := node.relations[k];
      if IsLink(node, r) {
        pending' := pending + [PendingLinks(r, keys)];
      } else {
        values' := values[r.prop := RefValue(r, keys)];
      }
    }
  }

  function LinksOfPending(format: Json -> string, node: Node, parent: Json, pending: seq<PendingLinks>): seq<Insert> {
    if pending == [] then []
    else
      var last := pending[|pending| - 1];
      LinksOfPending(format, node, parent, pending[..|pending| - 1]) +
      LinksTo(format, node, last.relation, parent, Unique(format, last.keys))
  }

  lemma {:induction false} PendingAreOwnLinks(format: Json -> string, node: Node, fields: map<string, Json>, n: nat)
    requires node.pkField in fields && n <= |node.relations|
    ensures LinksOfPending(format, node, fields[node.pkField], PendingOf(format, node, fields, n)) ==
            OwnLinks(format, node, fields, n)
    decreases n
  {
    if n > 0 {
      PendingAreOwnLinks(format, node, fields, n - 1);
      var before, r, keys :=
          PendingOf(format, node, fields, n - 1), node.relations[n - 1], KeysUnder(format, node, fields, n - 1);
      if keys != [] && IsLink(node, r) {
        var now := before + [PendingLinks(r, keys)];
        assert now[..|now| - 1] == before;
      } else if IsLink(node, r) {
        assert LinksAt(format, node, fields, n - 1) == [];
      }
    }
  }

  lemma OneMoreItem(format: Json -> string, node: Node, items: seq<Json>, i: nat)
    requires i < |items|
    ensures ItemInserts(format, node, items[..i + 1]) ==
            ItemInserts(format, node, items[..i]) + RecordInserts(format, node, items[i])
    ensures ItemKeys(node, items[..i + 1]) ==
      ItemKeys(node, items[..i]) + (if KeyField(node, items[i]) == JNull then [] else [KeyField(node, items[i])])
  {
    assert items[..i + 1][..i] == items[..i];
  }

  /** `markedInsertContext`. */
  class Context {
    var insertedRows: map<string, set<string>>
    var insertedLink: set<string>
    var operations: seq<Op>

    constructor ()
      ensures State() == Inserted([], {})
    {
      insertedRows, insertedLink, operations := map[], {}, [];
    }

    ghost function State(): Inserted
      reads this
    {
      Inserted(operations,
               (set t, k | t in insertedRows && k in insertedRows[t] :: RowId(t, k)) +
               (set l | l in insertedLink :: LinkId(l)))
    }

    method RecordInsertedRow(table: string, key: string) returns (added: bool)
      modifies this`insertedRows
      ensures added == (RowId(table, key) !in old(State()).seen)
      ensures State().ops == old(State()).ops && State().seen == old(State()).seen + {RowId(table, key)}
    {
      if table !in insertedRows {
        insertedRows := insertedRows[table := {}];
      }
      if key in insertedRows[table] {
        return false;
      }
      insertedRows := insertedRows[table := insertedRows[table] + {key}];
      return true;
    }

    method InsertOwnRow(format: Json -> string, node: Node, fields: map<string, Json>, values: map<string, Value>)
      requires node.pkField in fields && node.pkField in node.scalars
      requires values == RowValues(format, node, fields, |node.relations|)
      modifies this
      ensures State() == Add(old(State()), OwnRow(format, node, fields))
    {
      var added := RecordInsertedRow(node.table, format(fields[node.pkField]));
      if added {
        var row := BuildRow(node.scalars + SortedKeys(ReferenceColumns(node)), values);
        RowIsNotEmpty(format, node, fields);
        if |row.columns| > 0 {
          operations := operations + [InsertRows(node.table, [row])];
        }
      }
    }

    method InsertLinks(format: Json -> string, node: Node, r: Relation, parent: Json, keys: seq<Json>)
      modifies this`insertedLink, this`operations
      ensures State() == AddAll(old(State()), LinksTo(format, node, r, parent, keys))
    {
      var links := LinksTo(format, node, r, parent, keys);
      for i := 0 to |keys|
        invariant State() == AddAll(old(State()), links[..i])
      {
        assert links[..i + 1][..i] == links[..i];
        var text := LinkText(format, JoinTable(node, r), parent, keys[i]);
        if text !in insertedLink {
          insertedLink := insertedLink + {text};
          operations := operations + [links[i].op];
        }
      }
      assert links[..|keys|] == links;
    }

    method ProcessNode(format: Json -> string, node: Node, raw: Json) returns (keys: seq<Json>)
      requires KeysAreScalars(node)
      modifies this
      ensures State() == AddAll(old(State()), NodeInserts(format, node, raw))
      ensures keys == RefKeys(format, node, raw)
      decreases node, 3, 0
    {
      if raw == JNull {
        return [];
      }
      if !node.isArray {
        if !raw.JObject? {
          return [];
        }
        var key := ProcessRecord(format, node, raw.fields);
        return if key == JNull then [] else [key];
      }
      if raw.JArray? {
        keys := ProcessItems(format, node, raw.items);
      } else if raw.JObject? {
        keys := ProcessItems(format, node, [raw]);
      } else {
        return [];
      }
    }

    method ProcessItems(format: Json -> string, node: Node, items: seq<Json>) returns (keys: seq<Json>)
      requires KeysAreScalars(node)
      modifies this
      ensures State() == AddAll(old(State()), ItemInserts(format, node, items))
      ensures keys == Unique(format, ItemKeys(node, items))
      decreases node, 2, 0
    {
      var found: seq<Json> := [];
      for i := 0 to |items|
        invariant State() == AddAll(old(State()), ItemInserts(format, node, items[..i]))
        invariant found == ItemKeys(node, items[..i])
      {
        OneMoreItem(format, node, items, i);
        AddAllConcat(old(State()), ItemInserts(format, node, items[..i]), RecordInserts(format, node, items[i]));
        if items[i].JObject? {
          var key := ProcessRecord(format, node, items[i].fields);
          if key != JNull {
            found := found + [key];
          }
        }
      }
      assert items[..|items|] == items;
      keys := UniqueValues(format, found);
    }

    method ProcessRecord(format: Json -> string, node: Node, fields: map<string, Json>) returns (key: Json)
      requires KeysAreScalars(node)
      modifies this
      ensures State() == AddAll(old(State()), RecordInserts(format, node, JObject(fields)))
      ensures key == KeyField(node, JObject(fields))
      decreases node, 1, 0
    {
      var values, pending := ProcessChildren(format, node, fields);
      if node.pkField !in fields {
        assert RecordInserts(format, node, JObject(fields)) == ChildInserts(format, node, fields, |node.relations|);
        return JNull;
      }
      key := fields[node.pkField];
      AddAllConcat(old(State()), ChildInserts(format, node, fields, |node.relations|),
                   OwnInserts(format, node, fields));
      AddAllConcat(State(), [OwnRow(format, node, fields)], OwnLinks(format, node, fields, |node.relations|));
      InsertOwnRow(format, node, fields, values);
      WriteLinks(format, node, key, pending);
      PendingAreOwnLinks(format, node, fields, |node.relations|);
    }

    method WriteLinks(format: Json -> string, node: Node, parent: Json, pending: seq<PendingLinks>)
      modifies this
      ensures State() == AddAll(old(State()), LinksOfPending(format, node, parent, pending))
    {
      for i := 0 to |pending|
        invariant State() == AddAll(old(State()), LinksOfPending(format, node, parent, pending[..i]))
      {
        assert pending[..i + 1][..i] == pending[..i];
        var keys := UniqueValues(format, pending[i].keys);
        AddAllConcat(old(State()), LinksOfPending(format, node, parent, pending[..i]),
                     LinksTo(format, node, pending[i].relation, parent, keys));
        InsertLinks(format, node, pending[i].relation, parent, keys);
      }
      assert pending[..|pending|] == pending;
    }

    method ProcessChildren(format: Json -> string, node: Node, fields: map<string, Json>)
      returns (values: map<string, Value>, pending: seq<PendingLinks>)
      requires KeysAreScalars(node)
      modifies this
      ensures State() == AddAll(old(State()), ChildInserts(format, node, fields, |node.relations|))
      ensures values == RowValues(format, node, fields, |node.relations|)
      ensures pending == PendingOf(format, node, fields, |node.relations|)
      decreases node, 0, 1
    {
      values := CollectScalars(node.scalars, fields);
      pending := [];
      for n := 0 to |node.relations|
        invariant State() == AddAll(old(State()), ChildInserts(format, node, fields, n))
        invariant values == RowValues(format, node, fields, n)
        invariant pending == PendingOf(format, node, fields, n)
      {
        AddAllConcat(old(State()), ChildInserts(format, node, fields, n), InsertsAt(format, node, fields, n));
        var keys := ProcessChild(format, node, fields, n);
        values, pending := TakeKeys(node, n, keys, values, pending);
      }
    }

    method ProcessChild(format: Json -> string, node: Node, fields: map<string, Json>, n: nat) returns (keys: seq<Json>)
      requires KeysAreScalars(node) && n < |node.relations|
      modifies this
      ensures State() == AddAll(old(State()), InsertsAt(format, node, fields, n))
      ensures keys == KeysUnder(format, node, fields, n)
      decreases node, 0, 0
    {
      var r := node.relations[n];
      if r.prop !in fields {
        return [];
      }
      keys := ProcessNode(format, r.child, fields[r.prop]);
    }
  }

  /** The key of every marked schema is one of its scalar properties. */
  predicate KeysAreScalars(node: Node) {
    node.pkField in node.scalars && forall i :: 0 <= i < |node.relations| ==> KeysAreScalars(node.relations[i].child)
  }

  method BuildInsertOpsFromMarkedPlan(format: Json -> string, roots: seq<Root>, payload: Json) returns (ops: seq<Op>)
    requires forall root :: root in roots ==> KeysAreScalars(root.node)
    ensures ops == AddAll(Inserted([], {}), PayloadInserts(format, roots, payload)).ops
  {
    var ctx := new Context();
    for i := 0 to |roots|
      invariant ctx.State() == AddAll(Inserted([], {}), PayloadInserts(format, roots[..i], payload))
    {
      assert roots[..i + 1][..i] == roots[..i];
      var target := ResolveByPath(payload, roots[i].path);
      AddAllConcat(Inserted([], {}), PayloadInserts(format, roots[..i], payload),
                   NodeInserts(format, roots[i].node, target));
      var keys := ctx.ProcessNode(format, roots[i].node, target);
    }
    assert roots[..|roots|] == roots;
    ops := ctx.operations;
  }
}
