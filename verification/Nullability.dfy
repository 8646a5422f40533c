/** Relaxing NOT NULL flags to fit the rows of a plan, in the column arrays the plan shares with
    the compiled operations. */
module Nullability {
  import opened Common
  import opened Plans

  type SharedOp = Operation<array<Column>>

  // ---- which columns a plan needs to be nullable ----

  function Present(row: PlanRow): set<string> {
    set i | 0 <= i < |row.columns| && i < |row.values| :: row.columns[i]
  }

  predicate EmptyAt(row: PlanRow, i: nat)
    requires i < |row.columns|
  {
    i >= |row.values| || IsNull(row.values[i])
  }

  function RowMarks(columns: seq<Column>, row: PlanRow): set<string> {
    (set i | 0 <= i < |row.columns| && EmptyAt(row, i) :: row.columns[i]) +
    (set i | 0 <= i < |columns| && !columns[i].primaryKey && columns[i].name !in Present(row) :: columns[i].name)
  }

  function RowsMarks(columns: seq<Column>, rows: seq<PlanRow>): set<string> {
    if rows == [] then {} else RowsMarks(columns, rows[..|rows| - 1]) + RowMarks(columns, rows[|rows| - 1])
  }

  /** The columns of the last create of a table; none when the plan does not create it. */
  function LastColumns(ops: seq<Op>, table: string): seq<Column> {
    if ops == [] then []
    else if ops[|ops| - 1].CreateTable? && ops[|ops| - 1].table == table then ops[|ops| - 1].columns
    else LastColumns(ops[..|ops| - 1], table)
  }

  function Relaxed(columns: seq<Column>, marks: set<string>): seq<Column> {
    seq(|columns|, i requires 0 <= i < |columns| =>
      if !columns[i].primaryKey && columns[i].name in marks then columns[i].(nullable := true) else columns[i])
  }

  function MarksFor(ops: seq<Op>, table: string): set<string> {
    RowsMarks(LastColumns(ops, table), WritesTo(ops, table))
  }

  // ---- the loops ----

  method CollectNullableColumns(columns: seq<Column>, rows: seq<PlanRow>, marks: set<string>) returns (r: set<string>)
    ensures r == marks + RowsMarks(columns, rows)
  {
    r := marks;
    for k := 0 to |rows|
      invariant r == marks + RowsMarks(columns, rows[..k])
    {
      assert rows[..k + 1][..k] == rows[..k];
      var row := rows[k];
      var present: set<string>, empty: set<string> := {}, {};
      for i := 0 to |row.columns|
        invariant present == set j | 0 <= j < i && j < |row.values| :: row.columns[j]
        invariant empty == set j | 0 <= j < i && EmptyAt(row, j) :: row.columns[j]
      {
        if i >= |row.values| {
          empty := empty + {row.columns[i]};
        } else {
          present := present + {row.columns[i]};
          if IsNull(row.values[i]) {
            empty := empty + {row.columns[i]};
          }
        }
      }
      assert present == Present(row);
      var missing: set<string> := {};
      for i := 0 to |columns|
        invariant missing == set j | 0 <= j < i && !columns[j].primaryKey && columns[j].name !in present ::
                    columns[j].name
      {
        if !columns[i].primaryKey && columns[i].name !in present {
          missing := missing + {columns[i].name};
        }
      }
      r := r + empty + missing;
    }
    assert rows[..|rows|] == rows;
  }

  method RelaxCreateTableColumns(columns: array<Column>, marks: set<string>)
    modifies columns
    ensures columns[..] == Relaxed(old(columns[..]), marks)
  {
    for i := 0 to columns.Length
      invariant forall k :: 0 <= k < i ==> columns[k] == Relaxed(old(columns[..]), marks)[k]
      invariant forall k :: i <= k < columns.Length ==> columns[k] == old(columns[k])
    {
      if !columns[i].primaryKey && columns[i].name in marks {
        columns[i] := columns[i].(nullable := true);
      }
    }
  }

  ghost function Arrays(plan: seq<SharedOp>): set<array<Column>> {
    set i | 0 <= i < |plan| && plan[i].CreateTable? :: plan[i].columns
  }

  function ReadOp(op: SharedOp): Op
    reads if op.CreateTable? then {op.columns} else {}
  {
    match op
    case CreateTable(table, columns) => CreateTable(table, columns[..])
    case CreateLinkTable(table, l, lt, r, rt, key) => CreateLinkTable(table, l, lt, r, rt, key)
    case InsertRows(table, rows) => InsertRows(table, rows)
  }

  /** The plan as it reads now. */
  ghost function View(plan: seq<SharedOp>): seq<Op>
    reads Arrays(plan)
  {
    seq(|plan|, i requires 0 <= i < |plan| reads Arrays(plan) => ReadOp(plan[i]))
  }

  ghost predicate SameArray(a: SharedOp, b: SharedOp) {
    a.CreateTable? && b.CreateTable? && a.columns == b.columns
  }

  /** An array of columns belongs to one table. */
  ghost predicate OneTablePerArray(plan: seq<SharedOp>) {
    forall i, j :: 0 <= i < |plan| && 0 <= j < |plan| && SameArray(plan[i], plan[j]) ==> plan[i].table == plan[j].table
  }

  /** Every create of the plan relaxed by the marks of its table; the rest as it was. */
  function RelaxedPlan(ops: seq<Op>): seq<Op> {
    seq(|ops|, i requires 0 <= i < |ops| =>
      if ops[i].CreateTable? then ops[i].(columns := Relaxed(ops[i].columns, MarksFor(ops, ops[i].table))) else ops[i])
  }

  function Get<V>(m: map<string, V>, key: string, otherwise: V): V {
    if key in m then m[key] else otherwise
  }

  lemma {:induction false} RowsMarksConcat(columns: seq<Column>, a: seq<PlanRow>, b: seq<PlanRow>)
    ensures RowsMarks(columns, a + b) == RowsMarks(columns, a) + RowsMarks(columns, b)
    decreases |b|
  {
    if b == [] {
      assert a + b == a;
    } else {
      assert (a + b)[..|a + b| - 1] == a + b[..|b| - 1];
      RowsMarksConcat(columns, a, b[..|b| - 1]);
    }
  }

  lemma RelaxedTwice(columns: seq<Column>, marks: set<string>)
    ensures Relaxed(Relaxed(columns, marks), marks) == Relaxed(columns, marks)
  {
  }

  method TableColumns(plan: seq<SharedOp>) returns (m: map<string, seq<Column>>)
    ensures forall t :: Get(m, t, []) == LastColumns(View(plan), t)
  {
    m := map[];
    for i := 0 to |plan|
      invariant forall t :: Get(m, t, []) == LastColumns(View(plan)[..i], t)
    {
      assert View(plan)[..i + 1][..i] == View(plan)[..i];
      if plan[i].CreateTable? {
        m := m[plan[i].table := plan[i].columns[..]];
      }
    }
    assert View(plan)[..|plan|] == View(plan);
  }

  function MarksUpTo(ops: seq<Op>, n: nat, table: string): set<string>
    requires n <= |ops|
  {
    RowsMarks(LastColumns(ops, table), WritesTo(ops[..n], table))
  }

  function StepMarks(ops: seq<Op>, n: nat, table: string): set<string>
    requires n < |ops|
  {
    if ops[n].InsertRows? && ops[n].table == table then RowsMarks(LastColumns(ops, table), ops[n].rows) else {}
  }

  lemma MarksStep(ops: seq<Op>, n: nat, table: string)
    requires n < |ops|
    ensures MarksUpTo(ops, n + 1, table) == MarksUpTo(ops, n, table) + StepMarks(ops, n, table)
  {
    assert ops[..n + 1][..n] == ops[..n];
    if ops[n].InsertRows? && ops[n].table == table {
      RowsMarksConcat(LastColumns(ops, table), WritesTo(ops[..n], table), ops[n].rows);
    }
  }

  ghost predicate Collected(ops: seq<Op>, n: nat, m: map<string, set<string>>)
    requires n <= |ops|
  {
    forall t :: Get(m, t, {}) == MarksUpTo(ops, n, t)
  }

  lemma NextMarks(ops: seq<Op>, n: nat, before: map<string, set<string>>, after: map<string, set<string>>)
    requires n < |ops| && Collected(ops, n, before)
    requires forall t :: Get(after, t, {}) == Get(before, t, {}) + StepMarks(ops, n, t)
    ensures Collected(ops, n + 1, after)
  {
    forall t ensures Get(after, t, {}) == MarksUpTo(ops, n + 1, t) {
      MarksStep(ops, n, t);
    }
  }

  lemma AllMarks(ops: seq<Op>, m: map<string, set<string>>)
    requires Collected(ops, |ops|, m)
    ensures forall t :: Get(m, t, {}) == MarksFor(ops, t)
  {
    assert ops[..|ops|] == ops;
  }

  method MarkRows(columns: seq<Column>, table: string, rows: seq<PlanRow>, m: map<string, set<string>>)
    returns (r: map<string, set<string>>)
    ensures forall t :: Get(r, t, {}) == Get(m, t, {}) + (if t == table then RowsMarks(columns, rows) else {})
  {
    var marks := CollectNullableColumns(columns, rows, Get(m, table, {}));
    r := if marks != {} then m[table := marks] else m;
  }

  method CollectMarks(plan: seq<SharedOp>, columns: map<string, seq<Column>>) returns (m: map<string, set<string>>)
    requires forall t :: Get(columns, t, []) == LastColumns(View(plan), t)
    ensures forall t :: Get(m, t, {}) == MarksFor(View(plan), t)
  {
    m := map[];
    ghost var ops := View(plan);
    for i := 0 to |plan|
      invariant View(plan) == ops && Collected(ops, i, m)
    {
      ghost var before := m;
      if plan[i].InsertRows? {
        m := MarkRows(Get(columns, plan[i].table, []), plan[i].table, plan[i].rows, m);
        assert Get(columns, plan[i].table, []) == LastColumns(ops, plan[i].table);
      }
      assert ops[i] == ReadOp(plan[i]);
      NextMarks(ops, i, before, m);
    }
    AllMarks(ops, m);
  }

  method RelaxCreates(plan: seq<SharedOp>, marks: map<string, set<string>>)
    requires OneTablePerArray(plan)
    modifies Arrays(plan)
    ensures forall i :: 0 <= i < |plan| && plan[i].CreateTable? ==>
              plan[i].columns[..] == Relaxed(old(plan[i].columns[..]), Get(marks, plan[i].table, {}))
  {
    for i := 0 to |plan|
      invariant forall j :: 0 <= j < |plan| && plan[j].CreateTable? ==>
        || plan[j].columns[..] == Relaxed(old(plan[j].columns[..]), Get(marks, plan[j].table, {}))
        || (i <= j && plan[j].columns[..] == old(plan[j].columns[..]))
    {
      if plan[i].CreateTable? {
        assert forall j :: 0 <= j < |plan| && SameArray(plan[i], plan[j]) ==> plan[j].table == plan[i].table;
        RelaxedTwice(old(plan[i].columns[..]), Get(marks, plan[i].table, {}));
        RelaxCreateTableColumns(plan[i].columns, Get(marks, plan[i].table, {}));
      }
    }
  }

  method RelaxPlanNullability(plan: seq<SharedOp>)
    requires OneTablePerArray(plan)
    modifies Arrays(plan)
    ensures View(plan) == RelaxedPlan(old(View(plan)))
  {
    var columns := TableColumns(plan);
    var marks := CollectMarks(plan, columns);
    ghost var ops := View(plan);
    if marks == map[] {
      NothingMarked(ops);
      return;
    }
    RelaxCreates(plan, marks);
  }

  lemma NothingMarked(ops: seq<Op>)
    requires forall t :: MarksFor(ops, t) == {}
    ensures RelaxedPlan(ops) == ops
  {
    forall i | 0 <= i < |ops| ensures RelaxedPlan(ops)[i] == ops[i] {
      if ops[i].CreateTable? {
        assert MarksFor(ops, ops[i].table) == {};
        assert Relaxed(ops[i].columns, {}) == ops[i].columns;
      }
    }
  }

  // ---- what the relaxed flags mean ----

  /** The row has no value, or a null, for the column. */
  predicate GivesNothing(row: PlanRow, column: string) {
    column !in row.columns ||
    exists i :: 0 <= i < |row.columns| && row.columns[i] == column &&
                (i < |row.values| ==> row.values[i] == Scalar(JNull))
  }

  predicate IsNonKey(columns: seq<Column>, name: string) {
    exists i :: 0 <= i < |columns| && columns[i].name == name && !columns[i].primaryKey
  }

  /** A row asks for a nullable column: it gives it nothing, and either names it or belongs to a
      table whose last create has it outside the key. */
  predicate Asks(columns: seq<Column>, row: PlanRow, name: string) {
    GivesNothing(row, name) && (name in row.columns || IsNonKey(columns, name))
  }

  lemma RowMarksMean(columns: seq<Column>, row: PlanRow, name: string)
    ensures name in RowMarks(columns, row) <==> Asks(columns, row, name)
  {
    if Asks(columns, row, name) {
      if i :| 0 <= i < |row.columns| && row.columns[i] == name && EmptyAt(row, i) {
      } else {
        var k :| 0 <= k < |columns| && columns[k].name == name && !columns[k].primaryKey;
        assert columns[k].name !in Present(row);
      }
    }
    if name in RowMarks(columns, row) {
      if name in row.columns && name !in Present(row) {
        var i :| 0 <= i < |row.columns| && row.columns[i] == name;
        assert EmptyAt(row, i);
      }
    }
  }

  lemma {:induction false} RowsMarksMean(columns: seq<Column>, rows: seq<PlanRow>, name: string)
    ensures name in RowsMarks(columns, rows) <==> exists r :: r in rows && Asks(columns, r, name)
    decreases |rows|
  {
    if rows != [] {
      RowsMarksMean(columns, rows[..|rows| - 1], name);
      RowMarksMean(columns, rows[|rows| - 1], name);
      assert rows == rows[..|rows| - 1] + [rows[|rows| - 1]];
    }
  }

  lemma {:induction false} SameWrites(a: seq<Op>, b: seq<Op>, table: string)
    requires |a| == |b| &&
             forall i :: 0 <= i < |a| ==> a[i].InsertRows? == b[i].InsertRows? && (a[i].InsertRows? ==> a[i] == b[i])
    ensures WritesTo(a, table) == WritesTo(b, table)
    decreases |a|
  {
    if a != [] {
      SameWrites(a[..|a| - 1], b[..|b| - 1], table);
    }
  }

  /** No row lacks or nulls a column that stays NOT NULL outside the key. */
  predicate FlagsFit(columns: seq<Column>, rows: seq<PlanRow>) {
    forall k, r :: 0 <= k < |columns| && r in rows && !columns[k].primaryKey && !columns[k].nullable ==>
      !GivesNothing(r, columns[k].name)
  }

  /** For every NOT NULL column outside the key that the table's last create does not have: every
      row names it, or some row names it without giving it a value. */
  predicate StrayColumnsNamed(columns: seq<Column>, last: seq<Column>, rows: seq<PlanRow>) {
    forall k ::
      0 <= k < |columns| && !columns[k].primaryKey && !columns[k].nullable && !IsNonKey(last, columns[k].name) ==>
      || (forall r :: r in rows ==> columns[k].name in r.columns)
      || (exists r :: r in rows && columns[k].name in r.columns && GivesNothing(r, columns[k].name))
  }

  lemma FlagFits(columns: seq<Column>, last: seq<Column>, rows: seq<PlanRow>, k: nat, r: PlanRow)
    requires StrayColumnsNamed(columns, last, rows) && k < |columns| && r in rows
    requires !columns[k].primaryKey && !columns[k].nullable && columns[k].name !in RowsMarks(last, rows)
    ensures !GivesNothing(r, columns[k].name)
  {
    RowsMarksMean(last, rows, columns[k].name);
    assert !Asks(last, r, columns[k].name);
    if !IsNonKey(last, columns[k].name) && r.columns != [] {
      if q :| q in rows && columns[k].name in q.columns && GivesNothing(q, columns[k].name) {
        assert Asks(last, q, columns[k].name);
      }
    }
  }

  lemma StrayColumnNamed(columns: seq<Column>, last: seq<Column>, rows: seq<PlanRow>, k: nat)
    requires FlagsFit(Relaxed(columns, RowsMarks(last, rows)), rows) && k < |columns|
    requires !columns[k].primaryKey && !columns[k].nullable && !IsNonKey(last, columns[k].name)
    ensures || (forall r :: r in rows ==> columns[k].name in r.columns)
            || (exists r :: r in rows && columns[k].name in r.columns && GivesNothing(r, columns[k].name))
  {
    RowsMarksMean(last, rows, columns[k].name);
    var relaxed := Relaxed(columns, RowsMarks(last, rows));
    assert relaxed[k].name == columns[k].name;
    if relaxed[k].nullable {
      var r :| r in rows && Asks(last, r, columns[k].name);
    } else {
      forall r | r in rows ensures columns[k].name in r.columns { assert !GivesNothing(r, relaxed[k].name); }
    }
  }

  /** Relaxing is sound for one create of a table exactly when no NOT NULL column of it strays
      from the table's last create. */
  lemma RelaxedFlagsFit(columns: seq<Column>, last: seq<Column>, rows: seq<PlanRow>)
    ensures FlagsFit(Relaxed(columns, RowsMarks(last, rows)), rows) <==> StrayColumnsNamed(columns, last, rows)
  {
    var relaxed := Relaxed(columns, RowsMarks(last, rows));
    if StrayColumnsNamed(columns, last, rows) {
      forall k, r | 0 <= k < |relaxed| && r in rows && !relaxed[k].primaryKey && !relaxed[k].nullable
        ensures !GivesNothing(r, relaxed[k].name)
      {
        FlagFits(columns, last, rows, k, r);
      }
    }
    if FlagsFit(relaxed, rows) {
      forall k | 0 <= k < |columns| && !columns[k].primaryKey && !columns[k].nullable &&
      !IsNonKey(last, columns[k].name)
        ensures || (forall r :: r in rows ==> columns[k].name in r.columns)
                || (exists r :: r in rows && columns[k].name in r.columns && GivesNothing(r, columns[k].name))
      {
        StrayColumnNamed(columns, last, rows, k);
      }
    }
  }

  /** Every create of a table has the columns of the last one outside the key. */
  predicate OneColumnSet(ops: seq<Op>) {
    forall i, k ::
      0 <= i < |ops| && ops[i].CreateTable? && 0 <= k < |ops[i].columns| && !ops[i].columns[k].primaryKey ==>
      IsNonKey(LastColumns(ops, ops[i].table), ops[i].columns[k].name)
  }

  predicate PlanFits(ops: seq<Op>) {
    forall i :: 0 <= i < |ops| && ops[i].CreateTable? ==> FlagsFit(ops[i].columns, WritesTo(ops, ops[i].table))
  }

  predicate NoStrayColumns(ops: seq<Op>) {
    forall i :: 0 <= i < |ops| && ops[i].CreateTable? ==>
      StrayColumnsNamed(ops[i].columns, LastColumns(ops, ops[i].table), WritesTo(ops, ops[i].table))
  }

  /** The relaxed plan can be inserted exactly when no create of it strays from the table's last
      create; with one column set per table it always can. */
  lemma RelaxedPlanFits(ops: seq<Op>)
    ensures PlanFits(RelaxedPlan(ops)) <==> NoStrayColumns(ops)
    ensures OneColumnSet(ops) ==> NoStrayColumns(ops)
  {
    var relaxed := RelaxedPlan(ops);
    forall i | 0 <= i < |ops| && ops[i].CreateTable?
      ensures relaxed[i].CreateTable? && relaxed[i].table == ops[i].table
      ensures FlagsFit(relaxed[i].columns, WritesTo(relaxed, relaxed[i].table)) <==>
              StrayColumnsNamed(ops[i].columns, LastColumns(ops, ops[i].table), WritesTo(ops, ops[i].table))
    {
      SameWrites(ops, relaxed, ops[i].table);
      RelaxedFlagsFit(ops[i].columns, LastColumns(ops, ops[i].table), WritesTo(ops, ops[i].table));
    }
    assert forall i :: 0 <= i < |ops| ==> relaxed[i].CreateTable? == ops[i].CreateTable?;
  }

  /** A flag flips only from NOT NULL to nullable, only outside the key, and only when some row of
      the table lacks or nulls the column; nothing else of a create changes. */
  lemma FlipsAreNeeded(ops: seq<Op>, i: nat, k: nat)
    requires i < |ops| && ops[i].CreateTable? && k < |ops[i].columns|
    ensures var before, after := ops[i].columns[k], RelaxedPlan(ops)[i].columns[k];
            && RelaxedPlan(ops)[i].table == ops[i].table && |RelaxedPlan(ops)[i].columns| == |ops[i].columns|
            && (after == before
                || (after == before.(nullable := true) && !before.primaryKey
                    && exists r :: r in WritesTo(ops, ops[i].table) && GivesNothing(r, before.name)))
  {
    RowsMarksMean(LastColumns(ops, ops[i].table), WritesTo(ops, ops[i].table), ops[i].columns[k].name);
  }

  /** A column named only by an earlier create of its table can keep NOT NULL although a row lacks it. */
  lemma StrayColumnKeepsItsFlag()
    ensures var id, name := Column("id", "TEXT", false, true), Column("name", "TEXT", false, false);
            var row := InsertRow(["id"], [Scalar(JString("1"))]);
            var ops := [CreateTable("t", [id, name]), CreateTable("t", [id]), InsertRows("t", [row])];
            RelaxedPlan(ops) == ops && row in WritesTo(ops, "t") && GivesNothing(row, "name")
  {
    var id, name := Column("id", "TEXT", false, true), Column("name", "TEXT", false, false);
    var row := InsertRow(["id"], [Scalar(JString("1"))]);
    var first := [CreateTable("t", [id, name]), CreateTable("t", [id])];
    var ops := first + [InsertRows("t", [row])];
    assert ops == [CreateTable("t", [id, name]), CreateTable("t", [id]), InsertRows("t", [row])];
    assert ops[..|ops| - 1] == first && first[..|first| - 1] == [CreateTable("t", [id, name])];
    assert first[..|first| - 1][..0] == [];
    assert WritesTo(first[..|first| - 1], "t") == [];
    assert WritesTo(first, "t") == [];
    assert WritesTo(ops, "t") == [row];
    assert LastColumns(first, "t") == [id] && LastColumns(ops, "t") == [id];
    assert [row][..0] == [];
    assert RowMarks([id], row) == {};
    assert RowsMarks([id], [row]) == {};
    NothingRelaxed(ops, "t");
  }

  lemma NothingRelaxed(ops: seq<Op>, table: string)
    requires MarksFor(ops, table) == {} && forall i :: 0 <= i < |ops| && ops[i].CreateTable? ==> ops[i].table == table
    ensures RelaxedPlan(ops) == ops
  {
    forall i | 0 <= i < |ops| ensures RelaxedPlan(ops)[i] == ops[i] {
      if ops[i].CreateTable? {
        assert Relaxed(ops[i].columns, {}) == ops[i].columns;
      }
    }
  }

  // ---- over all cycles ----

  /** The same columns, with flags moved only from NOT NULL to nullable and never in the key. */
  predicate Loosened(before: seq<Column>, after: seq<Column>) {
    |before| == |after| && forall k :: 0 <= k < |before| ==>
      after[k] == before[k] || (!before[k].primaryKey && after[k] == before[k].(nullable := true))
  }

  /** The plans of any number of cycles, committed or not, share the compiled arrays: whatever they
      hold, the flags only ever loosen. */
  method RelaxEveryCycle(plans: seq<seq<SharedOp>>)
    requires forall p :: p in plans ==> OneTablePerArray(p)
    modifies set p, a | p in plans && a in Arrays(p) :: a
    ensures forall p, a :: p in plans && a in Arrays(p) ==> Loosened(old(a[..]), a[..])
  {
    for n := 0 to |plans|
      invariant forall p, a :: p in plans && a in Arrays(p) ==> Loosened(old(a[..]), a[..])
    {
      label Cycle:
      RelaxPlanNullability(plans[n]);
      forall a | a in Arrays(plans[n]) ensures Loosened(old@Cycle(a[..]), a[..]) {
        var i :| 0 <= i < |plans[n]| && plans[n][i].CreateTable? && plans[n][i].columns == a;
        assert View(plans[n])[i] == ReadOp(plans[n][i]);
      }
    }
  }

  function AfterCycles(columns: seq<Column>, marks: seq<set<string>>): seq<Column> {
    if marks == [] then columns else Relaxed(AfterCycles(columns, marks[..|marks| - 1]), marks[|marks| - 1])
  }

  /** After any run a column is nullable exactly when it was compiled so or some cycle marked it. */
  lemma {:induction false} FlagsRemember(columns: seq<Column>, marks: seq<set<string>>, k: nat)
    requires k < |columns|
    ensures var after := AfterCycles(columns, marks);
            && |after| == |columns| && Loosened(columns, after)
            && (after[k].nullable <==>
                 columns[k].nullable ||
                 (!columns[k].primaryKey && exists n :: 0 <= n < |marks| && columns[k].name in marks[n]))
    decreases |marks|
  {
    if marks != [] {
      var front := marks[..|marks| - 1];
      FlagsRemember(columns, front, k);
      assert forall n :: 0 <= n < |front| ==> front[n] == marks[n];
    }
  }
}
