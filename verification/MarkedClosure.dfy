/** The inserts of a marked payload are referentially closed at every point, hold nothing twice and
    hold every keyed record. */
module MarkedClosure {
  import opened Common
  import opened Plans
  import opened Values
  import opened MarkedNodes
  import opened MarkedRecords

  /** What the created tables declare: the key column of each table, the table each reference
      column refers to, and the two tables each link table joins. */
  datatype Schema = Schema(keys: map<string, string>, refs: map<(string, string), string>,
                           links: map<string, (string, string)>)

  // ---- what an operation inserts, and what it refers to ----

  function KeyText(format: Json -> string, row: PlanRow, column: string): Option<string> {
    if Carries(row, column) && Field(row, column).Scalar? then Some(format(Field(row, column).scalar)) else None
  }

  predicate IsPair(row: PlanRow) {
    |row.values| == 2 && row.values[0].Scalar? && row.values[1].Scalar?
  }

  /** The row or link an operation inserts. */
  function IdOf(format: Json -> string, schema: Schema, op: Op): Option<Id> {
    if !op.InsertRows? || |op.rows| != 1 then None
    else if op.table in schema.keys then
      match KeyText(format, op.rows[0], schema.keys[op.table])
      case None => None
      case Some(key) => Some(RowId(op.table, key))
    else if op.table in schema.links && IsPair(op.rows[0]) then
      Some(LinkId(LinkText(format, op.table, op.rows[0].values[0].scalar, op.rows[0].values[1].scalar)))
    else None
  }

  function IdsOf(format: Json -> string, schema: Schema, ops: seq<Op>): set<Id> {
    if ops == [] then {}
    else
      var before, last := IdsOf(format, schema, ops[..|ops| - 1]), IdOf(format, schema, ops[|ops| - 1]);
      if last.Some? then before + {last.value} else before
  }

  predicate Names(format: Json -> string, v: Value, key: string) {
    match v
    case Scalar(json) => format(json) == key
    case Array(items, _) => exists i :: 0 <= i < |items| && format(items[i]) == key
  }

  /** Every row of a table that a value refers to is among these. */
  ghost predicate PointsInto(format: Json -> string, v: Value, table: string, ids: set<Id>) {
    forall key :: Names(format, v, key) ==> RowId(table, key) in ids
  }

  ghost predicate ReferencesIn(format: Json -> string, schema: Schema, table: string, row: PlanRow, ids: set<Id>) {
    forall prop :: (table, prop) in schema.refs && Carries(row, prop) ==>
      PointsInto(format, Field(row, prop), schema.refs[(table, prop)], ids)
  }

  ghost predicate EndsIn(format: Json -> string, schema: Schema, table: string, row: PlanRow, ids: set<Id>) {
    table in schema.links ==>
      && IsPair(row)
      && PointsInto(format, row.values[0], schema.links[table].0, ids)
      && PointsInto(format, row.values[1], schema.links[table].1, ids)
  }

  /** All that an operation refers to, by a reference column, an array of references or either end
      of a link, is among these. */
  ghost predicate Closed(format: Json -> string, schema: Schema, op: Op, ids: set<Id>) {
    && op.InsertRows? && (op.table in schema.keys || op.table in schema.links)
    && forall r ::
         r in op.rows ==> ReferencesIn(format, schema, op.table, r, ids) && EndsIn(format, schema, op.table, r, ids)
  }

  ghost predicate EveryPrefixClosed(format: Json -> string, schema: Schema, ops: seq<Op>) {
    forall i :: 0 <= i < |ops| ==> Closed(format, schema, ops[i], IdsOf(format, schema, ops[..i]))
  }

  /** No row or link is inserted twice. */
  predicate NoRepeats(format: Json -> string, schema: Schema, ops: seq<Op>) {
    forall i :: 0 <= i < |ops| ==>
      IdOf(format, schema, ops[i]).Some? && IdOf(format, schema, ops[i]).value !in IdsOf(format, schema, ops[..i])
  }

  // ---- nodes that fit the declared schema ----

  /** The node's table, key, reference columns and link tables are as the schema declares; scalar
      columns are no reference columns and link tables are no node tables. */
  predicate Fits(schema: Schema, node: Node) {
    && node.table in schema.keys && schema.keys[node.table] == node.pkField && node.table !in schema.links
    && node.pkField in node.scalars
    && (forall c :: c in node.scalars ==> (node.table, c) !in schema.refs)
    && forall i :: 0 <= i < |node.relations| ==>
         RelationFits(schema, node, node.relations[i]) && Fits(schema, node.relations[i].child)
  }

  predicate RelationFits(schema: Schema, node: Node, r: Relation) {
    var join := JoinTable(node, r);
    if IsLink(node, r)
         then join in schema.links && schema.links[join] == (node.table, r.child.table) && join !in schema.keys
                            && forall ref :: ref in schema.refs ==> ref.0 != join
    else (node.table, r.prop) in schema.refs && schema.refs[(node.table, r.prop)] == r.child.table
  }

  // ---- lists of inserts that need nothing from outside ----

  function Ids(inserts: seq<Insert>): set<Id> {
    set i | 0 <= i < |inserts| :: inserts[i].id
  }

  /** Each insert inserts what it says and refers only to these ids and to earlier inserts. */
  ghost predicate Admissible(format: Json -> string, schema: Schema, ids: set<Id>, inserts: seq<Insert>) {
    forall i :: 0 <= i < |inserts| ==>
      IdOf(format, schema, inserts[i].op) == Some(inserts[i].id) &&
      Closed(format, schema, inserts[i].op, ids + Ids(inserts[..i]))
  }

  lemma ClosedInMore(format: Json -> string, schema: Schema, op: Op, ids: set<Id>, more: set<Id>)
    requires Closed(format, schema, op, ids) && ids <= more
    ensures Closed(format, schema, op, more)
  {
    forall r | r in op.rows
      ensures ReferencesIn(format, schema, op.table, r, more) && EndsIn(format, schema, op.table, r, more)
    {
      assert ReferencesIn(format, schema, op.table, r, ids) && EndsIn(format, schema, op.table, r, ids);
      forall prop | (op.table, prop) in schema.refs && Carries(r, prop)
        ensures PointsInto(format, Field(r, prop), schema.refs[(op.table, prop)], more)
      {
        assert PointsInto(format, Field(r, prop), schema.refs[(op.table, prop)], ids);
      }
    }
  }

  lemma IdsConcat(a: seq<Insert>, b: seq<Insert>)
    ensures Ids(a + b) == Ids(a) + Ids(b)
  {
    forall i | 0 <= i < |b| ensures b[i].id in Ids(a + b) { assert (a + b)[|a| + i] == b[i]; }
    forall i | 0 <= i < |a| ensures a[i].id in Ids(a + b) { assert (a + b)[i] == a[i]; }
  }

  lemma AdmissibleConcat(format: Json -> string, schema: Schema, ids: set<Id>, a: seq<Insert>, b: seq<Insert>)
    requires Admissible(format, schema, ids, a) && Admissible(format, schema, ids + Ids(a), b)
    ensures Admissible(format, schema, ids, a + b)
  {
    forall i | 0 <= i < |a + b|
      ensures IdOf(format, schema, (a + b)[i].op) == Some((a + b)[i].id)
      ensures Closed(format, schema, (a + b)[i].op, ids + Ids((a + b)[..i]))
    {
      if i < |a| {
        assert (a + b)[..i] == a[..i];
      } else {
        assert (a + b)[..i] == a + b[..i - |a|];
        IdsConcat(a, b[..i - |a|]);
        assert ids + Ids(a) + Ids(b[..i - |a|]) == ids + Ids((a + b)[..i]);
      }
    }
  }

  lemma AdmissibleWithMore(format: Json -> string, schema: Schema, ids: set<Id>, more: set<Id>, inserts: seq<Insert>)
    requires Admissible(format, schema, ids, inserts) && ids <= more
    ensures Admissible(format, schema, more, inserts)
  {
    forall i | 0 <= i < |inserts| ensures Closed(format, schema, inserts[i].op, more + Ids(inserts[..i])) {
      ClosedInMore(format, schema, inserts[i].op, ids + Ids(inserts[..i]), more + Ids(inserts[..i]));
    }
  }

  /** Two lists that need nothing else, one after the other. */
  lemma BothAdmissible(format: Json -> string, schema: Schema, ids: set<Id>, a: seq<Insert>, b: seq<Insert>)
    requires Admissible(format, schema, ids, a) && Admissible(format, schema, ids, b)
    ensures Admissible(format, schema, ids, a + b)
  {
    AdmissibleWithMore(format, schema, ids, ids + Ids(a), b);
    AdmissibleConcat(format, schema, ids, a, b);
  }

  lemma AllClosedIsAdmissible(format: Json -> string, schema: Schema, ids: set<Id>, inserts: seq<Insert>)
    requires forall i :: 0 <= i < |inserts| ==>
               IdOf(format, schema, inserts[i].op) == Some(inserts[i].id) && Closed(format, schema, inserts[i].op, ids)
    ensures Admissible(format, schema, ids, inserts)
  {
    forall i | 0 <= i < |inserts| ensures Closed(format, schema, inserts[i].op, ids + Ids(inserts[..i])) {
      ClosedInMore(format, schema, inserts[i].op, ids, ids + Ids(inserts[..i]));
    }
  }

  // ---- keys handed to a parent are inserted below it ----

  lemma {:induction false} NodeInsertsItsKeys(format: Json -> string, node: Node, raw: Json, key: Json)
    requires key in RefKeys(format, node, raw)
    ensures RowId(node.table, format(key)) in Ids(NodeInserts(format, node, raw))
  {
    if node.isArray {
      UniqueDrawsFrom(format, ItemKeys(node, Items(raw)));
      ItemsInsertTheirKeys(format, node, Items(raw), key);
    } else {
      RecordInsertsItsKey(format, node, raw);
    }
  }

  lemma {:induction false} ItemsInsertTheirKeys(format: Json -> string, node: Node, items: seq<Json>, key: Json)
    requires key in ItemKeys(node, items)
    ensures RowId(node.table, format(key)) in Ids(ItemInserts(format, node, items))
    decreases |items|
  {
    var front, last := items[..|items| - 1], items[|items| - 1];
    IdsConcat(ItemInserts(format, node, front), RecordInserts(format, node, last));
    if key in ItemKeys(node, front) {
      ItemsInsertTheirKeys(format, node, front, key);
    } else {
      RecordInsertsItsKey(format, node, last);
    }
  }

  lemma RecordInsertsItsKey(format: Json -> string, node: Node, record: Json)
    requires KeyField(node, record) != JNull
    ensures RowId(node.table, format(KeyField(node, record))) in Ids(RecordInserts(format, node, record))
  {
    var own := OwnInserts(format, node, record.fields);
    assert own[0].id == RowId(node.table, format(KeyField(node, record)));
    IdsConcat(ChildInserts(format, node, record.fields, |node.relations|), own);
  }

  lemma {:induction false} ChildKeyInserted(format: Json -> string, node: Node, fields: map<string, Json>, n: nat,
                                            k: nat, key: Json)
    requires k < n <= |node.relations| && key in KeysUnder(format, node, fields, k)
    ensures RowId(node.relations[k].child.table, format(key)) in Ids(ChildInserts(format, node, fields, n))
    decreases n
  {
    if k == n - 1 {
      KeyInsertedAt(format, node, fields, k, key);
    } else {
      ChildKeyInserted(format, node, fields, n - 1, k, key);
    }
    IdsConcat(ChildInserts(format, node, fields, n - 1), InsertsAt(format, node, fields, n - 1));
  }

  lemma KeyInsertedAt(format: Json -> string, node: Node, fields: map<string, Json>, k: nat, key: Json)
    requires k < |node.relations| && key in KeysUnder(format, node, fields, k)
    ensures RowId(node.relations[k].child.table, format(key)) in Ids(InsertsAt(format, node, fields, k))
  {
    var r := node.relations[k];
    NodeInsertsItsKeys(format, r.child, fields[r.prop], key);
  }

  // ---- the row of a record ----

  lemma {:induction false} RowOfField(columns: seq<string>, values: map<string, Value>, i: nat)
    requires i < |RowOf(columns, values).columns|
    ensures var row := RowOf(columns, values);
            |row.columns| == |row.values| && row.columns[i] in values && row.values[i] == values[row.columns[i]]
    decreases |columns|
  {
    var front := RowOf(columns[..|columns| - 1], values);
    RowOfSays(columns[..|columns| - 1], values, "");
    if i < |front.columns| {
      RowOfField(columns[..|columns| - 1], values, i);
    }
  }

  lemma FieldOfRow(columns: seq<string>, values: map<string, Value>, c: string)
    requires Carries(RowOf(columns, values), c)
    ensures c in values && Field(RowOf(columns, values), c) == values[c]
  {
    RowOfSays(columns, values, c);
    RowOfField(columns, values, IndexOf(RowOf(columns, values).columns, c));
  }

  predicate IsReference(format: Json -> string, node: Node, fields: map<string, Json>, k: nat, c: string, v: Value)
    requires k < |node.relations|
  {
    && node.relations[k].prop == c && !IsLink(node, node.relations[k])
    && KeysUnder(format, node, fields, k) != [] && v == RefValue(node.relations[k], KeysUnder(format, node, fields, k))
  }

  predicate FromRelation(format: Json -> string, node: Node, fields: map<string, Json>, c: string, v: Value) {
    exists k :: 0 <= k < |node.relations| && IsReference(format, node, fields, k, c, v)
  }

  /** A value of a record's row is a scalar property or the keys under a direct relation. */
  lemma {:induction false} RowValueIs(format: Json -> string, node: Node, fields: map<string, Json>, n: nat, c: string)
    requires n <= |node.relations| && c in RowValues(format, node, fields, n)
    ensures var v := RowValues(format, node, fields, n)[c];
            FromRelation(format, node, fields, c, v) || (c in node.scalars && c in fields && v == Scalar(fields[c]))
    decreases n
  {
    if n > 0 {
      if c == node.relations[n - 1].prop && KeysUnder(format, node, fields, n - 1) != [] &&
         !IsLink(node, node.relations[n - 1]) {
        assert IsReference(format, node, fields, n - 1, c, RowValues(format, node, fields, n)[c]);
      } else {
        RowValueIs(format, node, fields, n - 1, c);
      }
    }
  }

  lemma OwnRowHasItsKey(format: Json -> string, schema: Schema, node: Node, fields: map<string, Json>)
    requires Fits(schema, node) && node.pkField in fields
    ensures IdOf(format, schema, OwnRow(format, node, fields).op) == Some(OwnRow(format, node, fields).id)
  {
    var values := RowValues(format, node, fields, |node.relations|);
    RowIsNotEmpty(format, node, fields);
    RowOfSays(ColumnOrder(node), values, node.pkField);
    FieldOfRow(ColumnOrder(node), values, node.pkField);
    RowValueIs(format, node, fields, |node.relations|, node.pkField);
  }

  /** What the n-th relation adds to the values of a row. */
  lemma RelationAdds(format: Json -> string, node: Node, fields: map<string, Json>, n: nat, c: string)
    requires 0 < n <= |node.relations|
    ensures var r, keys := node.relations[n - 1], KeysUnder(format, node, fields, n - 1);
            var before, after := RowValues(format, node, fields, n - 1), RowValues(format, node, fields, n);
            && (c == r.prop && keys != [] && !IsLink(node, r) ==> c in after && after[c] == RefValue(r, keys))
            && (c != r.prop && c in before ==> c in after && after[c] == before[c])
  {
  }

  lemma {:induction false} LastReferenceStands(format: Json -> string, node: Node, fields: map<string, Json>, n: nat,
                                               k: nat)
    requires k < n <= |node.relations| && !IsLink(node, node.relations[k]) && KeysUnder(format, node, fields, k) != []
    requires forall j :: 0 <= j < |node.relations| && node.relations[j].prop == node.relations[k].prop ==> j == k
    ensures node.relations[k].prop in RowValues(format, node, fields, n)
    ensures RowValues(format, node, fields, n)[node.relations[k].prop] ==
            RefValue(node.relations[k], KeysUnder(format, node, fields, k))
    decreases n
  {
    RelationAdds(format, node, fields, n, node.relations[k].prop);
    if k < n - 1 {
      LastReferenceStands(format, node, fields, n - 1, k);
      assert node.relations[n - 1].prop != node.relations[k].prop;
    }
  }

  lemma ReferenceStands(format: Json -> string, node: Node, fields: map<string, Json>, k: nat)
    requires node.pkField in fields && k < |node.relations| && !IsLink(node, node.relations[k]) &&
             KeysUnder(format, node, fields, k) != []
    requires forall j :: 0 <= j < |node.relations| && node.relations[j].prop == node.relations[k].prop ==> j == k
    ensures var row, prop := OwnRow(format, node, fields).op.rows[0], node.relations[k].prop;
            Carries(row, prop) && Field(row, prop) == RefValue(node.relations[k], KeysUnder(format, node, fields, k))
  {
    var values, prop := RowValues(format, node, fields, |node.relations|), node.relations[k].prop;
    LastReferenceStands(format, node, fields, |node.relations|, k);
    assert prop in ReferenceColumns(node);
    assert prop in SortedKeys(ReferenceColumns(node));
    RowOfSays(ColumnOrder(node), values, prop);
    FieldOfRow(ColumnOrder(node), values, prop);
  }

  lemma ReferenceNeedsKeys(format: Json -> string, node: Node, fields: map<string, Json>, k: nat)
    requires node.pkField in fields && k < |node.relations| && node.relations[k].prop !in node.scalars
    requires forall j :: 0 <= j < |node.relations| && node.relations[j].prop == node.relations[k].prop ==> j == k
    requires Carries(OwnRow(format, node, fields).op.rows[0], node.relations[k].prop)
    ensures KeysUnder(format, node, fields, k) != []
  {
    var values, prop := RowValues(format, node, fields, |node.relations|), node.relations[k].prop;
    FieldOfRow(ColumnOrder(node), values, prop);
    RowValueIs(format, node, fields, |node.relations|, prop);
    var j :| 0 <= j < |node.relations| && IsReference(format, node, fields, j, prop, values[prop]);
  }

  lemma KeysNeedRecords(format: Json -> string, node: Node, raw: Json)
    ensures RefKeys(format, node, raw) != [] <==> exists record :: RecordIn(node, raw, record) && HasKey(node, record)
  {
    var keys := RefKeys(format, node, raw);
    if keys != [] {
      assert keys[0] in keys;
      RefKeysAre(format, node, raw, format(keys[0]));
    }
    if exists record :: RecordIn(node, raw, record) && HasKey(node, record) {
      var record :| RecordIn(node, raw, record) && HasKey(node, record);
      RefKeysAre(format, node, raw, format(record.fields[node.pkField]));
    }
  }

  /** What a row holds for a child: under an array the keys of all the records there, each text once
      in order of first occurrence; under an object that object's key. */
  ghost predicate RefersTo(format: Json -> string, child: Node, raw: Json, v: Value) {
    if child.isArray then v.Array? && v.elementType == child.pkType && ListsKeys(format, child, raw, v.items)
    else HasKey(child, raw) && v == Scalar(raw.fields[child.pkField])
  }

  /** A record's row has a value for a direct relation exactly when the record holds a record with a
      key there, and then refers to every one of them. */
  lemma RowRefersToChildren(format: Json -> string, node: Node, fields: map<string, Json>, k: nat)
    requires node.pkField in fields && k < |node.relations|
    requires !(node.isArray && node.relations[k].child.isArray) && node.relations[k].prop !in node.scalars
    requires forall j :: 0 <= j < |node.relations| && node.relations[j].prop == node.relations[k].prop ==> j == k
    ensures var row, prop, child := OwnRow(format, node, fields).op.rows[0], node.relations[k].prop,
                node.relations[k].child;
            && (Carries(row, prop) <==>
                  prop in fields &&
                  exists record :: RecordIn(child, fields[prop], record) && HasKey(child, record))
            && (Carries(row, prop) ==> RefersTo(format, child, fields[prop], Field(row, prop)))
  {
    var row, prop, child := OwnRow(format, node, fields).op.rows[0], node.relations[k].prop, node.relations[k].child;
    if Carries(row, prop) {
      ReferenceNeedsKeys(format, node, fields, k);
    }
    if prop in fields {
      KeysNeedRecords(format, child, fields[prop]);
      if KeysUnder(format, node, fields, k) != [] {
        ReferenceStands(format, node, fields, k);
        RefKeysListKeys(format, child, fields[prop]);
      }
    }
  }

  lemma {:induction false} ScalarStands(format: Json -> string, node: Node, fields: map<string, Json>, n: nat,
                                        c: string)
    requires n <= |node.relations| && c in node.scalars && c in fields
    requires forall j :: 0 <= j < |node.relations| ==> node.relations[j].prop != c
    ensures c in RowValues(format, node, fields, n) && RowValues(format, node, fields, n)[c] == Scalar(fields[c])
    decreases n
  {
    if n > 0 {
      ScalarStands(format, node, fields, n - 1, c);
    }
  }

  /** A record's row holds every scalar property the record has, and no column it has no value for. */
  lemma RowHoldsScalars(format: Json -> string, node: Node, fields: map<string, Json>, c: string)
    requires node.pkField in fields && forall j :: 0 <= j < |node.relations| ==> node.relations[j].prop != c
    ensures var row := OwnRow(format, node, fields).op.rows[0];
            && (Carries(row, c) <==> c in node.scalars && c in fields)
            && (Carries(row, c) ==> Field(row, c) == Scalar(fields[c]))
  {
    var values := RowValues(format, node, fields, |node.relations|);
    RowOfSays(ColumnOrder(node), values, c);
    if c in node.scalars && c in fields {
      ScalarStands(format, node, fields, |node.relations|, c);
    }
    if Carries(RowOf(ColumnOrder(node), values), c) {
      FieldOfRow(ColumnOrder(node), values, c);
      RowValueIs(format, node, fields, |node.relations|, c);
    }
  }

  lemma ReferencePointsInto(format: Json -> string, node: Node, fields: map<string, Json>, k: nat)
    requires k < |node.relations| && KeysUnder(format, node, fields, k) != []
    ensures PointsInto(format, RefValue(node.relations[k], KeysUnder(format, node, fields, k)),
                       node.relations[k].child.table,
                       Ids(ChildInserts(format, node, fields, |node.relations|)))
  {
    var keys := KeysUnder(format, node, fields, k);
    forall text | Names(format, RefValue(node.relations[k], keys), text)
      ensures RowId(node.relations[k].child.table, text) in Ids(ChildInserts(format, node, fields, |node.relations|))
    {
      var i :| 0 <= i < |keys| && format(keys[i]) == text;
      ChildKeyInserted(format, node, fields, |node.relations|, k, keys[i]);
    }
  }

  lemma OwnRowIsClosed(format: Json -> string, schema: Schema, node: Node, fields: map<string, Json>)
    requires Fits(schema, node) && node.pkField in fields
    ensures Closed(format, schema, OwnRow(format, node, fields).op,
                   Ids(ChildInserts(format, node, fields, |node.relations|)))
  {
    var values, ids :=
        RowValues(format, node, fields, |node.relations|), Ids(ChildInserts(format, node, fields, |node.relations|));
    var row := RowOf(ColumnOrder(node), values);
    forall prop | (node.table, prop) in schema.refs && Carries(row, prop)
      ensures PointsInto(format, Field(row, prop), schema.refs[(node.table, prop)], ids)
    {
      FieldOfRow(ColumnOrder(node), values, prop);
      RowValueIs(format, node, fields, |node.relations|, prop);
      var k :| 0 <= k < |node.relations| && IsReference(format, node, fields, k, prop, values[prop]);
      assert RelationFits(schema, node, node.relations[k]);
      ReferencePointsInto(format, node, fields, k);
    }
  }

  // ---- its links ----

  lemma LinkIsClosed(format: Json -> string, schema: Schema, node: Node, r: Relation, parent: Json, child: Json,
                     ids: set<Id>)
    requires IsLink(node, r) && RelationFits(schema, node, r)
    requires RowId(node.table, format(parent)) in ids && RowId(r.child.table, format(child)) in ids
    ensures var link := Link(format, node, r, parent, child);
            IdOf(format, schema, link.op) == Some(link.id) && Closed(format, schema, link.op, ids)
  {
  }

  lemma LinksAtAreClosed(format: Json -> string, schema: Schema, node: Node, fields: map<string, Json>, k: nat,
                         ids: set<Id>)
    requires Fits(schema, node) && node.pkField in fields && k < |node.relations|
    requires RowId(node.table, format(fields[node.pkField])) in ids &&
             Ids(ChildInserts(format, node, fields, |node.relations|)) <= ids
    ensures Admissible(format, schema, ids, LinksAt(format, node, fields, k))
  {
    var r := node.relations[k];
    if IsLink(node, r) {
      var keys := Unique(format, KeysUnder(format, node, fields, k));
      assert RelationFits(schema, node, r);
      UniqueDrawsFrom(format, KeysUnder(format, node, fields, k));
      var links := LinksTo(format, node, r, fields[node.pkField], keys);
      forall i | 0 <= i < |links|
        ensures IdOf(format, schema, links[i].op) == Some(links[i].id) && Closed(format, schema, links[i].op, ids)
      {
        assert keys[i] in keys;
        ChildKeyInserted(format, node, fields, |node.relations|, k, keys[i]);
        LinkIsClosed(format, schema, node, r, fields[node.pkField], keys[i], ids);
      }
      AllClosedIsAdmissible(format, schema, ids, links);
    }
  }

  lemma {:induction false} OwnLinksAreClosed(format: Json -> string, schema: Schema, node: Node,
                                             fields: map<string, Json>, n: nat, ids: set<Id>)
    requires node.pkField in fields && n <= |node.relations|
    requires forall k :: 0 <= k < n ==> Admissible(format, schema, ids, LinksAt(format, node, fields, k))
    ensures Admissible(format, schema, ids, OwnLinks(format, node, fields, n))
    decreases n
  {
    if n > 0 {
      OwnLinksAreClosed(format, schema, node, fields, n - 1, ids);
      BothAdmissible(format, schema, ids, OwnLinks(format, node, fields, n - 1), LinksAt(format, node, fields, n - 1));
    }
  }

  lemma OwnInsertsAreClosed(format: Json -> string, schema: Schema, node: Node, fields: map<string, Json>)
    requires Fits(schema, node) && node.pkField in fields
    ensures Admissible(format, schema, Ids(ChildInserts(format, node, fields, |node.relations|)),
                       OwnInserts(format, node, fields))
  {
    var ids, own := Ids(ChildInserts(format, node, fields, |node.relations|)), [OwnRow(format, node, fields)];
    OwnRowHasItsKey(format, schema, node, fields);
    OwnRowIsClosed(format, schema, node, fields);
    AllClosedIsAdmissible(format, schema, ids, own);
    assert own[0].id in Ids(own);
    forall k | 0 <= k < |node.relations|
      ensures Admissible(format, schema, ids + Ids(own), LinksAt(format, node, fields, k))
    {
      LinksAtAreClosed(format, schema, node, fields, k, ids + Ids(own));
    }
    OwnLinksAreClosed(format, schema, node, fields, |node.relations|, ids + Ids(own));
    AdmissibleConcat(format, schema, ids, own, OwnLinks(format, node, fields, |node.relations|));
  }

  // ---- the recursion ----

  lemma {:induction false} NodeIsContained(format: Json -> string, schema: Schema, node: Node, raw: Json)
    requires Fits(schema, node)
    ensures Admissible(format, schema, {}, NodeInserts(format, node, raw))
    decreases node, 3, 0
  {
    if node.isArray {
      ItemsAreContained(format, schema, node, Items(raw));
    } else {
      RecordIsContained(format, schema, node, raw);
    }
  }

  lemma {:induction false} ItemsAreContained(format: Json -> string, schema: Schema, node: Node, items: seq<Json>)
    requires Fits(schema, node)
    ensures Admissible(format, schema, {}, ItemInserts(format, node, items))
    decreases node, 2, |items|
  {
    if items != [] {
      var front, last := items[..|items| - 1], items[|items| - 1];
      ItemsAreContained(format, schema, node, front);
      RecordIsContained(format, schema, node, last);
      BothAdmissible(format, schema, {}, ItemInserts(format, node, front), RecordInserts(format, node, last));
    }
  }

  lemma {:induction false} RecordIsContained(format: Json -> string, schema: Schema, node: Node, record: Json)
    requires Fits(schema, node)
    ensures Admissible(format, schema, {}, RecordInserts(format, node, record))
    decreases node, 1, 0
  {
    if record.JObject? {
      var below, own :=
          ChildInserts(format, node, record.fields, |node.relations|), OwnInserts(format, node, record.fields);
      ChildrenAreContained(format, schema, node, record.fields, |node.relations|);
      if node.pkField in record.fields {
        OwnInsertsAreClosed(format, schema, node, record.fields);
      }
      assert {} + Ids(below) == Ids(below);
      AdmissibleConcat(format, schema, {}, below, own);
    }
  }

  lemma {:induction false} ChildrenAreContained(format: Json -> string, schema: Schema, node: Node,
                                                fields: map<string, Json>, n: nat)
    requires Fits(schema, node) && n <= |node.relations|
    ensures Admissible(format, schema, {}, ChildInserts(format, node, fields, n))
    decreases node, 0, n
  {
    if n > 0 {
      var r := node.relations[n - 1];
      ChildrenAreContained(format, schema, node, fields, n - 1);
      if r.prop in fields {
        NodeIsContained(format, schema, r.child, fields[r.prop]);
      }
      BothAdmissible(format, schema, {}, ChildInserts(format, node, fields, n - 1),
                     InsertsAt(format, node, fields, n - 1));
    }
  }

  lemma {:induction false} PayloadIsContained(format: Json -> string, schema: Schema, roots: seq<Root>, payload: Json)
    requires forall root :: root in roots ==> Fits(schema, root.node)
    ensures Admissible(format, schema, {}, PayloadInserts(format, roots, payload))
    decreases |roots|
  {
    if roots != [] {
      var front, last := roots[..|roots| - 1], roots[|roots| - 1];
      PayloadIsContained(format, schema, front, payload);
      NodeIsContained(format, schema, last.node, ResolveByPath(payload, last.path));
      BothAdmissible(format, schema, {}, PayloadInserts(format, front, payload),
                     NodeInserts(format, last.node, ResolveByPath(payload, last.path)));
    }
  }

  // ---- inserting each once keeps a contained list closed ----

  ghost predicate Sound(format: Json -> string, schema: Schema, s: Inserted) {
    s.seen == IdsOf(format, schema, s.ops) && EveryPrefixClosed(format, schema, s.ops) &&
    NoRepeats(format, schema, s.ops)
  }

  lemma AddKeepsSound(format: Json -> string, schema: Schema, s: Inserted, insert: Insert)
    requires Sound(format, schema, s)
    requires IdOf(format, schema, insert.op) == Some(insert.id) && Closed(format, schema, insert.op, s.seen)
    ensures Sound(format, schema, Add(s, insert))
  {
    if insert.id !in s.seen {
      var ops := s.ops + [insert.op];
      assert ops[..|ops| - 1] == s.ops;
      forall i | 0 <= i < |ops|
        ensures Closed(format, schema, ops[i], IdsOf(format, schema, ops[..i]))
        ensures IdOf(format, schema, ops[i]).Some? &&
                IdOf(format, schema, ops[i]).value !in IdsOf(format, schema, ops[..i])
      {
        if i < |s.ops| {
          assert ops[..i] == s.ops[..i] && ops[i] == s.ops[i];
        }
      }
    }
  }

  lemma {:induction false} SeenAre(s: Inserted, inserts: seq<Insert>)
    ensures AddAll(s, inserts).seen == s.seen + Ids(inserts)
    decreases |inserts|
  {
    if inserts != [] {
      var front, last := inserts[..|inserts| - 1], inserts[|inserts| - 1];
      SeenAre(s, front);
      assert inserts == front + [last] && Ids([last]) == {last.id};
      IdsConcat(front, [last]);
    }
  }

  lemma AddLast(s: Inserted, inserts: seq<Insert>, n: nat)
    requires 0 < n <= |inserts|
    ensures AddAll(s, inserts[..n]) == Add(AddAll(s, inserts[..n - 1]), inserts[n - 1])
  {
    assert inserts[..n][..n - 1] == inserts[..n - 1];
  }

  lemma NextInsertIsSound(format: Json -> string, schema: Schema, inserts: seq<Insert>, n: nat)
    requires Admissible(format, schema, {}, inserts) && n < |inserts|
    requires Sound(format, schema, AddAll(Inserted([], {}), inserts[..n]))
    ensures Sound(format, schema, AddAll(Inserted([], {}), inserts[..n + 1]))
  {
    var s := AddAll(Inserted([], {}), inserts[..n]);
    SeenAre(Inserted([], {}), inserts[..n]);
    assert Closed(format, schema, inserts[n].op, {} + Ids(inserts[..n]));
    AddKeepsSound(format, schema, s, inserts[n]);
    AddLast(Inserted([], {}), inserts, n + 1);
  }

  lemma {:induction false} ContainedKeepsSound(format: Json -> string, schema: Schema, inserts: seq<Insert>, n: nat)
    requires Admissible(format, schema, {}, inserts) && n <= |inserts|
    ensures Sound(format, schema, AddAll(Inserted([], {}), inserts[..n]))
    decreases n
  {
    if n > 0 {
      ContainedKeepsSound(format, schema, inserts, n - 1);
      NextInsertIsSound(format, schema, inserts, n - 1);
    }
  }

  /** Every prefix of the extracted operations is referentially closed, and no row or link is
      inserted twice. */
  lemma ExtractionIsClosed(format: Json -> string, schema: Schema, roots: seq<Root>, payload: Json)
    requires forall root :: root in roots ==> Fits(schema, root.node)
    ensures var ops := AddAll(Inserted([], {}), PayloadInserts(format, roots, payload)).ops;
            EveryPrefixClosed(format, schema, ops) && NoRepeats(format, schema, ops)
  {
    var inserts := PayloadInserts(format, roots, payload);
    PayloadIsContained(format, schema, roots, payload);
    ContainedKeepsSound(format, schema, inserts, |inserts|);
    assert inserts[..|inserts|] == inserts;
  }

  // ---- nothing is left out ----

  /** Somewhere under the node the payload holds a record that stands for this row or link. */
  ghost predicate Occurs(format: Json -> string, node: Node, raw: Json, id: Id)
    decreases node, 2
  {
    exists record :: RecordIn(node, raw, record) && OccursInRecord(format, node, record, id)
  }

  ghost predicate OccursInRecord(format: Json -> string, node: Node, record: Json, id: Id)
    decreases node, 1
  {
    record.JObject? &&
    (StandsFor(format, node, record.fields, id) || OccursBelow(format, node, record.fields, |node.relations|, id))
  }

  /** The record has its key, and this is its own row or a link to a key under a link relation. */
  ghost predicate StandsFor(format: Json -> string, node: Node, fields: map<string, Json>, id: Id) {
    && node.pkField in fields
    && (id == RowId(node.table, format(fields[node.pkField])) || Linked(format, node, fields, |node.relations|, id))
  }

  /** A link from the record's key to that of a record under one of the first n relations. */
  ghost predicate Linked(format: Json -> string, node: Node, fields: map<string, Json>, n: nat, id: Id)
    requires node.pkField in fields && n <= |node.relations|
  {
    exists k :: 0 <= k < n && LinkedAt(format, node, fields, k, id)
  }

  ghost predicate LinkedAt(format: Json -> string, node: Node, fields: map<string, Json>, k: nat, id: Id)
    requires node.pkField in fields && k < |node.relations|
  {
    var r := node.relations[k];
    && node.isArray && r.child.isArray && r.prop in fields
    && exists record ::
         RecordIn(r.child, fields[r.prop], record) && HasKey(r.child, record) &&
         id == LinkId(node.table + "_" + r.child.table + "_link" + "|" + format(fields[node.pkField]) + "|" +
                      format(record.fields[r.child.pkField]))
  }

  ghost predicate OccursBelow(format: Json -> string, node: Node, fields: map<string, Json>, n: nat, id: Id)
    requires n <= |node.relations|
    decreases node, 0
  {
    exists k :: 0 <= k < n && node.relations[k].prop in fields
      && Occurs(format, node.relations[k].child, fields[node.relations[k].prop], id)
  }

  lemma LinksToHold(format: Json -> string, node: Node, r: Relation, parent: Json, keys: seq<Json>, id: Id)
    ensures id in Ids(LinksTo(format, node, r, parent, Unique(format, keys))) <==>
              exists key :: key in keys && id == LinkId(LinkText(format, JoinTable(node, r), parent, key))
  {
    var unique := Unique(format, keys);
    var links := LinksTo(format, node, r, parent, unique);
    UniqueDrawsFrom(format, keys);
    if id in Ids(links) {
      var i :| 0 <= i < |links| && links[i].id == id;
      assert unique[i] in unique;
    }
    if exists key :: key in keys && id == LinkId(LinkText(format, JoinTable(node, r), parent, key)) {
      var key :| key in keys && id == LinkId(LinkText(format, JoinTable(node, r), parent, key));
      UniqueCovers(format, keys, key);
      var w :| w in unique && format(w) == format(key);
      var i :| 0 <= i < |unique| && unique[i] == w;
      assert links[i].id in Ids(links);
    }
  }

  lemma LinksAtHold(format: Json -> string, node: Node, fields: map<string, Json>, k: nat, id: Id)
    requires node.pkField in fields && k < |node.relations|
    ensures id in Ids(LinksAt(format, node, fields, k)) <==> LinkedAt(format, node, fields, k, id)
  {
    var r, parent := node.relations[k], fields[node.pkField];
    if IsLink(node, r) {
      var keys := KeysUnder(format, node, fields, k);
      LinksToHold(format, node, r, parent, keys, id);
      if key :| key in keys && id == LinkId(LinkText(format, JoinTable(node, r), parent, key)) {
        RefKeysAre(format, r.child, fields[r.prop], format(key));
      }
      if LinkedAt(format, node, fields, k, id) {
        var record :| RecordIn(r.child, fields[r.prop], record) && HasKey(r.child, record) &&
            id == LinkId(node.table + "_" + r.child.table + "_link" + "|" + format(parent) + "|" +
                         format(record.fields[r.child.pkField]));
        RefKeysAre(format, r.child, fields[r.prop], format(record.fields[r.child.pkField]));
      }
    }
  }

  /** A link row names its ends: the column called after the parent's table and key field holds the
      parent's key, the one called after the child's holds the key of a record under the relation. */
  lemma LinkRowNamesItsEnds(format: Json -> string, node: Node, fields: map<string, Json>, k: nat, i: nat)
    requires node.pkField in fields && k < |node.relations| && i < |LinksAt(format, node, fields, k)|
    ensures var r, op := node.relations[k], LinksAt(format, node, fields, k)[i].op;
            var left, right := node.table + "_" + node.pkField, r.child.table + "_" + r.child.pkField;
            && op.InsertRows? && op.table == node.table + "_" + r.child.table + "_link" && |op.rows| == 1
            && op.rows[0].columns == [left, right]
            && Carries(op.rows[0], left) && Field(op.rows[0], left) == Scalar(fields[node.pkField])
            && (left != right ==>
                  && Carries(op.rows[0], right) && Field(op.rows[0], right).Scalar? && r.prop in fields
                  && HandsUp(format, r.child, fields[r.prop], format(Field(op.rows[0], right).scalar)))
  {
    var r := node.relations[k];
    var keys := Unique(format, KeysUnder(format, node, fields, k));
    UniqueDrawsFrom(format, KeysUnder(format, node, fields, k));
    assert keys[i] in keys;
    RefKeysAre(format, r.child, fields[r.prop], format(keys[i]));
    var left, right := node.table + "_" + node.pkField, r.child.table + "_" + r.child.pkField;
    assert [left, right][1..] == [right] && IndexOf([right], right) == 0;
  }

  lemma {:induction false} ConcatHolds(parts: seq<seq<Insert>>, id: Id)
    ensures id in Ids(Concat(parts)) <==> exists k :: 0 <= k < |parts| && id in Ids(parts[k])
    decreases |parts|
  {
    if parts != [] {
      var front, last := parts[..|parts| - 1], parts[|parts| - 1];
      ConcatHolds(front, id);
      IdsConcat(Concat(front), last);
      assert forall k :: 0 <= k < |front| ==> front[k] == parts[k];
    }
  }

  function Concat(parts: seq<seq<Insert>>): seq<Insert> {
    if parts == [] then [] else Concat(parts[..|parts| - 1]) + parts[|parts| - 1]
  }

  function LinkParts(format: Json -> string, node: Node, fields: map<string, Json>, n: nat): seq<seq<Insert>>
    requires node.pkField in fields && n <= |node.relations|
  {
    seq(n, k requires 0 <= k < n => LinksAt(format, node, fields, k))
  }

  lemma {:induction false} OwnLinksAreParts(format: Json -> string, node: Node, fields: map<string, Json>, n: nat)
    requires node.pkField in fields && n <= |node.relations|
    ensures OwnLinks(format, node, fields, n) == Concat(LinkParts(format, node, fields, n))
    decreases n
  {
    if n > 0 {
      OwnLinksAreParts(format, node, fields, n - 1);
      assert LinkParts(format, node, fields, n)[..n - 1] == LinkParts(format, node, fields, n - 1);
    }
  }

  lemma OwnLinksHold(format: Json -> string, node: Node, fields: map<string, Json>, n: nat, id: Id)
    requires node.pkField in fields && n <= |node.relations|
    ensures id in Ids(OwnLinks(format, node, fields, n)) <==> Linked(format, node, fields, n, id)
  {
    var parts := LinkParts(format, node, fields, n);
    OwnLinksAreParts(format, node, fields, n);
    ConcatHolds(parts, id);
    forall k | 0 <= k < n ensures id in Ids(parts[k]) <==> LinkedAt(format, node, fields, k, id) {
      LinksAtHold(format, node, fields, k, id);
    }
  }

  lemma OwnInsertsHold(format: Json -> string, node: Node, fields: map<string, Json>, id: Id)
    ensures id in Ids(OwnInserts(format, node, fields)) <==> StandsFor(format, node, fields, id)
  {
    if node.pkField in fields {
      var own := [OwnRow(format, node, fields)];
      assert Ids(own) == {own[0].id};
      OwnLinksHold(format, node, fields, |node.relations|, id);
      IdsConcat(own, OwnLinks(format, node, fields, |node.relations|));
    }
  }

  lemma {:induction false} NodeInsertsHold(format: Json -> string, node: Node, raw: Json, id: Id)
    ensures id in Ids(NodeInserts(format, node, raw)) <==> Occurs(format, node, raw, id)
    decreases node, 3, 0
  {
    if node.isArray {
      ItemInsertsHold(format, node, Items(raw), id);
    } else {
      RecordInsertsHold(format, node, raw, id);
    }
    OccursInListed(format, node, raw, id);
  }

  ghost predicate OccursAmong(format: Json -> string, node: Node, items: seq<Json>, id: Id) {
    exists i: nat :: i < |items| && OccursInRecord(format, node, items[i], id)
  }

  lemma OccursInListed(format: Json -> string, node: Node, raw: Json, id: Id)
    ensures Occurs(format, node, raw, id) <==> OccursAmong(format, node, Listed(node, raw), id)
  {
    var items := Listed(node, raw);
    if OccursAmong(format, node, items, id) {
      var i: nat :| i < |items| && OccursInRecord(format, node, items[i], id);
      assert RecordIn(node, raw, items[i]);
    }
  }

  lemma OccursAmongGrows(format: Json -> string, node: Node, items: seq<Json>, id: Id)
    requires items != []
    ensures OccursAmong(format, node, items, id) <==>
              OccursAmong(format, node, items[..|items| - 1], id) ||
              OccursInRecord(format, node, items[|items| - 1], id)
  {
    var front := items[..|items| - 1];
    if OccursAmong(format, node, front, id) {
      var i: nat :| i < |front| && OccursInRecord(format, node, front[i], id);
      assert items[i] == front[i];
    }
    if OccursAmong(format, node, items, id) {
      var i: nat :| i < |items| && OccursInRecord(format, node, items[i], id);
      assert i < |front| ==> items[i] == front[i];
    }
  }

  lemma {:induction false} ItemInsertsHold(format: Json -> string, node: Node, items: seq<Json>, id: Id)
    ensures id in Ids(ItemInserts(format, node, items)) <==> OccursAmong(format, node, items, id)
    decreases node, 2, |items|
  {
    if items != [] {
      var front, last := items[..|items| - 1], items[|items| - 1];
      ItemInsertsHold(format, node, front, id);
      RecordInsertsHold(format, node, last, id);
      IdsConcat(ItemInserts(format, node, front), RecordInserts(format, node, last));
      OccursAmongGrows(format, node, items, id);
    }
  }

  lemma {:induction false} RecordInsertsHold(format: Json -> string, node: Node, record: Json, id: Id)
    ensures id in Ids(RecordInserts(format, node, record)) <==> OccursInRecord(format, node, record, id)
    decreases node, 1, 0
  {
    if record.JObject? {
      ChildInsertsHold(format, node, record.fields, |node.relations|, id);
      OwnInsertsHold(format, node, record.fields, id);
      IdsConcat(ChildInserts(format, node, record.fields, |node.relations|), OwnInserts(format, node, record.fields));
    }
  }

  lemma ChildInsertsGrow(format: Json -> string, node: Node, fields: map<string, Json>, n: nat, id: Id)
    requires 0 < n <= |node.relations|
    ensures id in Ids(ChildInserts(format, node, fields, n)) <==>
              id in Ids(ChildInserts(format, node, fields, n - 1)) || id in Ids(InsertsAt(format, node, fields, n - 1))
  {
    IdsConcat(ChildInserts(format, node, fields, n - 1), InsertsAt(format, node, fields, n - 1));
  }

  lemma OccursBelowGrows(format: Json -> string, node: Node, fields: map<string, Json>, n: nat, id: Id)
    requires 0 < n <= |node.relations|
    ensures var r := node.relations[n - 1];
            OccursBelow(format, node, fields, n, id) <==>
              OccursBelow(format, node, fields, n - 1, id) ||
              (r.prop in fields && Occurs(format, r.child, fields[r.prop], id))
  {
  }

  lemma {:induction false} ChildInsertsHold(format: Json -> string, node: Node, fields: map<string, Json>, n: nat,
                                            id: Id)
    requires n <= |node.relations|
    ensures id in Ids(ChildInserts(format, node, fields, n)) <==> OccursBelow(format, node, fields, n, id)
    decreases node, 0, n
  {
    if n > 0 {
      var r := node.relations[n - 1];
      ChildInsertsHold(format, node, fields, n - 1, id);
      if r.prop in fields {
        NodeInsertsHold(format, r.child, fields[r.prop], id);
      }
      ChildInsertsGrow(format, node, fields, n, id);
      OccursBelowGrows(format, node, fields, n, id);
    }
  }

  ghost predicate OccursInPayload(format: Json -> string, roots: seq<Root>, payload: Json, id: Id) {
    roots != [] &&
    (OccursInPayload(format, roots[..|roots| - 1], payload, id) ||
     Occurs(format, roots[|roots| - 1].node, ResolveByPath(payload, roots[|roots| - 1].path), id))
  }

  lemma {:induction false} PayloadInsertsHold(format: Json -> string, roots: seq<Root>, payload: Json, id: Id)
    ensures id in Ids(PayloadInserts(format, roots, payload)) <==> OccursInPayload(format, roots, payload, id)
    decreases |roots|
  {
    if roots != [] {
      var front, last := roots[..|roots| - 1], roots[|roots| - 1];
      var target := ResolveByPath(payload, last.path);
      PayloadInsertsHold(format, front, payload, id);
      NodeInsertsHold(format, last.node, target, id);
      IdsConcat(PayloadInserts(format, front, payload), NodeInserts(format, last.node, target));
    }
  }

  /** The extracted operations insert exactly the rows and links that the records of the payload stand for. */
  lemma ExtractionIsComplete(format: Json -> string, schema: Schema, roots: seq<Root>, payload: Json, id: Id)
    requires forall root :: root in roots ==> Fits(schema, root.node)
    ensures id in IdsOf(format, schema, AddAll(Inserted([], {}), PayloadInserts(format, roots, payload)).ops) <==>
            OccursInPayload(format, roots, payload, id)
  {
    var inserts := PayloadInserts(format, roots, payload);
    PayloadIsContained(format, schema, roots, payload);
    ContainedKeepsSound(format, schema, inserts, |inserts|);
    assert inserts[..|inserts|] == inserts;
    SeenAre(Inserted([], {}), inserts);
    PayloadInsertsHold(format, roots, payload, id);
  }

  /** Of several records with one key the first in order of extraction gives the row. */
  lemma {:induction false} FirstRecordWins(inserts: seq<Insert>, n: nat, i: nat) returns (k: nat)
    requires n <= |inserts| && i < |AddAll(Inserted([], {}), inserts[..n]).ops|
    ensures k < n && AddAll(Inserted([], {}), inserts[..n]).ops[i] == inserts[k].op
    ensures forall j :: 0 <= j < k ==> inserts[j].id != inserts[k].id
    decreases n
  {
    var front := inserts[..n][..n - 1];
    assert front == inserts[..n - 1];
    var before := AddAll(Inserted([], {}), front);
    SeenAre(Inserted([], {}), front);
    if i < |before.ops| {
      k := FirstRecordWins(inserts, n - 1, i);
    } else {
      k := n - 1;
      forall j | 0 <= j < k ensures inserts[j].id != inserts[k].id { assert front[j].id in Ids(front); }
    }
  }
}
