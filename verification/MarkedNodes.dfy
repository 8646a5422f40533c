/** What a marked payload stands for: the rows and links of its records, children first. */
module MarkedNodes {
  import opened Common
  import opened Plans
  import opened Values

  /** A schema object that is extracted into its own table. */
  datatype Node = Node(table: string, pkField: string, pkType: string, isArray: bool, scalars: seq<string>,
                       relations: seq<Relation>)

  /** A marked child directly under a property of its parent. */
  datatype Relation = Relation(prop: string, child: Node)

  predicate IsLink(node: Node, r: Relation) {
    node.isArray && r.child.isArray
  }

  function JoinTable(node: Node, r: Relation): string {
    node.table + "_" + r.child.table + "_link"
  }

  function JoinColumns(node: Node, r: Relation): seq<string> {
    [node.table + "_" + node.pkField, r.child.table + "_" + r.child.pkField]
  }

  /** Two rows of a table with one key text, or two links with one text, are the same insert. */
  datatype Id = RowId(table: string, key: string) | LinkId(text: string)

  datatype Insert = Insert(id: Id, op: Op)

  // ---- keys of the records under a node ----

  function Items(raw: Json): seq<Json> {
    match raw
    case JArray(items) => items
    case JObject(_) => [raw]
    case _ => []
  }

  function KeyField(node: Node, record: Json): Json {
    if record.JObject? && node.pkField in record.fields then record.fields[node.pkField] else JNull
  }

  function ItemKeys(node: Node, items: seq<Json>): seq<Json> {
    if items == [] then []
    else
      var front, key := ItemKeys(node, items[..|items| - 1]), KeyField(node, items[|items| - 1]);
      if key == JNull then front else front + [key]
  }

  /** The keys by which a parent refers to what it holds under a node. */
  function RefKeys(format: Json -> string, node: Node, raw: Json): seq<Json> {
    if node.isArray then Unique(format, ItemKeys(node, Items(raw)))
    else if KeyField(node, raw) == JNull then []
    else [KeyField(node, raw)]
  }

  // ---- the row of a record ----

  function ScalarValues(scalars: seq<string>, fields: map<string, Json>): map<string, Value> {
    map c | c in scalars && c in fields :: Scalar(fields[c])
  }

  function RefValue(r: Relation, keys: seq<Json>): Value
    requires keys != []
  {
    if r.child.isArray then Array(keys, r.child.pkType) else Scalar(keys[0])
  }

  /** The keys a record holds under its n-th relation. */
  function KeysUnder(format: Json -> string, node: Node, fields: map<string, Json>, n: nat): seq<Json>
    requires n < |node.relations|
  {
    var r := node.relations[n];
    if r.prop in fields then RefKeys(format, r.child, fields[r.prop]) else []
  }

  function RowValues(format: Json -> string, node: Node, fields: map<string, Json>, n: nat): map<string, Value>
    requires n <= |node.relations|
  {
    if n == 0 then ScalarValues(node.scalars, fields)
    else WithReference(node, n - 1, KeysUnder(format, node, fields, n - 1), RowValues(format, node, fields, n - 1))
  }

  function WithReference(node: Node, k: nat, keys: seq<Json>, values: map<string, Value>): (r: map<string, Value>)
    requires k < |node.relations|
    ensures values.Keys <= r.Keys
  {
    var relation := node.relations[k];
    if keys == [] || IsLink(node, relation) then values else values[relation.prop := RefValue(relation, keys)]
  }

  function ReferenceColumns(node: Node): set<string> {
    set i | 0 <= i < |node.relations| && !IsLink(node, node.relations[i]) :: node.relations[i].prop
  }

  function ColumnOrder(node: Node): seq<string> {
    node.scalars + SortedKeys(ReferenceColumns(node))
  }

  /** The row with the values there are, in the order of the columns. */
  function RowOf(columns: seq<string>, values: map<string, Value>): PlanRow {
    if columns == [] then InsertRow([], [])
    else
      var front, c := RowOf(columns[..|columns| - 1], values), columns[|columns| - 1];
      if c in values then InsertRow(front.columns + [c], front.values + [values[c]]) else front
  }

  function OwnRow(format: Json -> string, node: Node, fields: map<string, Json>): Insert
    requires node.pkField in fields
  {
    var row := RowOf(ColumnOrder(node), RowValues(format, node, fields, |node.relations|));
    Insert(RowId(node.table, format(fields[node.pkField])), InsertRows(node.table, [row]))
  }

  // ---- the links of a record ----

  function LinkText(format: Json -> string, table: string, parent: Json, child: Json): string {
    table + "|" + format(parent) + "|" + format(child)
  }

  function Link(format: Json -> string, node: Node, r: Relation, parent: Json, child: Json): Insert {
    Insert(LinkId(LinkText(format, JoinTable(node, r), parent, child)),
           InsertRows(JoinTable(node, r), [InsertRow(JoinColumns(node, r), [Scalar(parent), Scalar(child)])]))
  }

  function LinksTo(format: Json -> string, node: Node, r: Relation, parent: Json, keys: seq<Json>): seq<Insert> {
    seq(|keys|, i requires 0 <= i < |keys| => Link(format, node, r, parent, keys[i]))
  }

  function OwnLinks(format: Json -> string, node: Node, fields: map<string, Json>, n: nat): seq<Insert>
    requires node.pkField in fields && n <= |node.relations|
  {
    if n == 0 then [] else OwnLinks(format, node, fields, n - 1) + LinksAt(format, node, fields, n - 1)
  }

  function LinksAt(format: Json -> string, node: Node, fields: map<string, Json>, k: nat): seq<Insert>
    requires node.pkField in fields && k < |node.relations|
  {
    if !IsLink(node, node.relations[k]) then []
    else LinksTo(format, node, node.relations[k], fields[node.pkField],
                 Unique(format, KeysUnder(format, node, fields, k)))
  }

  // ---- everything under a node, children before parents ----

  function NodeInserts(format: Json -> string, node: Node, raw: Json): seq<Insert>
    decreases node, 3, 0
  {
    if node.isArray then ItemInserts(format, node, Items(raw)) else RecordInserts(format, node, raw)
  }

  function ItemInserts(format: Json -> string, node: Node, items: seq<Json>): seq<Insert>
    decreases node, 2, |items|
  {
    if items == [] then []
    else ItemInserts(format, node, items[..|items| - 1]) + RecordInserts(format, node, items[|items| - 1])
  }

  function RecordInserts(format: Json -> string, node: Node, record: Json): seq<Insert>
    decreases node, 1, 0
  {
    if !record.JObject? then []
    else ChildInserts(format, node, record.fields, |node.relations|) + OwnInserts(format, node, record.fields)
  }

  function OwnInserts(format: Json -> string, node: Node, fields: map<string, Json>): seq<Insert> {
    if node.pkField !in fields then []
    else [OwnRow(format, node, fields)] + OwnLinks(format, node, fields, |node.relations|)
  }

  function ChildInserts(format: Json -> string, node: Node, fields: map<string, Json>, n: nat): seq<Insert>
    requires n <= |node.relations|
    decreases node, 0, n
  {
    if n == 0 then [] else ChildInserts(format, node, fields, n - 1) + InsertsAt(format, node, fields, n - 1)
  }

  function InsertsAt(format: Json -> string, node: Node, fields: map<string, Json>, k: nat): seq<Insert>
    requires k < |node.relations|
    decreases node, 0, k
  {
    var r := node.relations[k];
    if r.prop in fields then NodeInserts(format, r.child, fields[r.prop]) else []
  }

  /** A top-level node and where the payload holds it. */
  datatype Root = Root(path: seq<string>, node: Node)

  function PayloadInserts(format: Json -> string, roots: seq<Root>, payload: Json): seq<Insert> {
    if roots == [] then []
    else
      var last := roots[|roots| - 1];
      PayloadInserts(format, roots[..|roots| - 1], payload) +
      NodeInserts(format, last.node, ResolveByPath(payload, last.path))
  }

  // ---- each insert once ----

  datatype Inserted = Inserted(ops: seq<Op>, seen: set<Id>)

  function Add(s: Inserted, insert: Insert): Inserted {
    if insert.id in s.seen then s else Inserted(s.ops + [insert.op], s.seen + {insert.id})
  }

  function AddAll(s: Inserted, inserts: seq<Insert>): Inserted {
    if inserts == [] then s else Add(AddAll(s, inserts[..|inserts| - 1]), inserts[|inserts| - 1])
  }

  lemma {:induction false} AddAllConcat(s: Inserted, a: seq<Insert>, b: seq<Insert>)
    ensures AddAll(s, a + b) == AddAll(AddAll(s, a), b)
    decreases |b|
  {
    if b == [] {
      assert a + b == a;
    } else {
      assert (a + b)[..|a + b| - 1] == a + b[..|b| - 1];
      AddAllConcat(s, a, b[..|b| - 1]);
    }
  }

  // ---- what a row says ----

  lemma {:induction false} RowValuesKeepScalars(format: Json -> string, node: Node, fields: map<string, Json>, n: nat,
                                                c: string)
    requires n <= |node.relations| && c in node.scalars && c in fields
    ensures c in RowValues(format, node, fields, n)
    decreases n
  {
    if n > 0 {
      RowValuesKeepScalars(format, node, fields, n - 1, c);
    }
  }

  lemma {:induction false} RowOfSays(columns: seq<string>, values: map<string, Value>, c: string)
    ensures var row := RowOf(columns, values);
            |row.columns| == |row.values| && (c in row.columns <==> c in columns && c in values)
    decreases |columns|
  {
    if columns != [] {
      RowOfSays(columns[..|columns| - 1], values, c);
      assert columns == columns[..|columns| - 1] + [columns[|columns| - 1]];
    }
  }

  lemma RowIsNotEmpty(format: Json -> string, node: Node, fields: map<string, Json>)
    requires node.pkField in fields && node.pkField in node.scalars
    ensures node.pkField in RowOf(ColumnOrder(node), RowValues(format, node, fields, |node.relations|)).columns
  {
    RowValuesKeepScalars(format, node, fields, |node.relations|, node.pkField);
    RowOfSays(ColumnOrder(node), RowValues(format, node, fields, |node.relations|), node.pkField);
  }
}
