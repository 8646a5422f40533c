/** Postgres statements as text. */
module PostgresText {
  import opened Common
  import opened Plans
  import opened Programs
  import opened Literals
  import opened Dedup
  import opened StatementText
  import opened Postgres
  import opened PostgresExport

  /** The inside of a quoted identifier: quotes doubled, dots between quoted parts. */
  function EscapeIdentifier(s: string): string {
    if s == "" then ""
    else (if s[0] == '.' then "\".\"" else if s[0] == '"' then "\"\"" else [s[0]]) + EscapeIdentifier(s[1..])
  }

  function QuoteIdentifier(s: string): string {
    "\"" + EscapeIdentifier(s) + "\""
  }

  function QuoteAll(names: seq<string>): seq<string> {
    seq(|names|, i requires 0 <= i < |names| => QuoteIdentifier(names[i]))
  }

  function ColumnText(c: Column): string {
    "  " + QuoteIdentifier(c.name) + " " + c.sqlType +
    (if c.primaryKey then " PRIMARY KEY" else if !c.nullable then " NOT NULL" else "")
  }

  function ColumnTexts(columns: seq<Column>): seq<string> {
    seq(|columns|, i requires 0 <= i < |columns| => ColumnText(columns[i]))
  }

  function UpdateTexts(columns: seq<string>, pk: seq<string>): seq<string> {
    if columns == [] then []
    else
      var front, c := UpdateTexts(columns[..|columns| - 1], pk), columns[|columns| - 1];
      if c in pk then front else front + [QuoteIdentifier(c) + " = EXCLUDED." + QuoteIdentifier(c)]
  }

  function ConflictText(columns: seq<string>, pk: seq<string>): string {
    if pk == [] then ""
    else
      var updates := UpdateTexts(columns, pk);
      " ON CONFLICT (" + Join(QuoteAll(pk), ", ") + ")" +
      (if updates == [] then " DO NOTHING" else " DO UPDATE SET " + Join(updates, ", "))
  }

  function EqualTexts(c: LiteralRow): seq<string> {
    seq(if |c.columns| <= |c.values| then |c.columns| else |c.values|,
        i requires 0 <= i < |c.columns| && i < |c.values| => QuoteIdentifier(c.columns[i]) + " = " + c.values[i])
  }

  function ClauseTexts(keep: seq<LiteralRow>): seq<string> {
    seq(|keep|, i requires 0 <= i < |keep| => "(" + Join(EqualTexts(keep[i]), " AND ") + ")")
  }

  function CreateHead(table: string): string {
    "CREATE TABLE IF NOT EXISTS " + QuoteIdentifier(table) + " ("
  }

  function LinkLines(lc: string, lt: string, rc: string, rt: string, linkKey: seq<string>): seq<string> {
    var left := if |linkKey| >= 2 then linkKey[0] else lc;
    var right := if |linkKey| >= 2 then linkKey[1] else rc;
    ["  " + QuoteIdentifier(lc) + " " + lt + " NOT NULL",
     "  " + QuoteIdentifier(rc) + " " + rt + " NOT NULL",
     "  PRIMARY KEY (" + QuoteIdentifier(left) + ", " + QuoteIdentifier(right) + ")"]
  }

  /** The statement without its closing semicolon. */
  function BodyText(s: Statement): string {
    match s
    case Create(table, columns) =>
      CreateHead(table) + "\n" + Join(ColumnTexts(columns), ",\n") + "\n)"
    case CreateLink(table, lc, lt, rc, rt, linkKey) =>
      CreateHead(table) + "\n" + Join(LinkLines(lc, lt, rc, rt, linkKey), ",\n") + "\n)"
    case Upsert(table, pk, row) =>
      "INSERT INTO " + QuoteIdentifier(table) + " (" + Join(QuoteAll(row.columns), ", ") + ") VALUES (" +
      Join(row.values, ", ") + ")" + ConflictText(row.columns, pk)
    case DeleteExcept(table, keep) =>
      "DELETE FROM " + QuoteIdentifier(table) +
      (if keep == [] then "" else " WHERE NOT (" + Join(ClauseTexts(keep), " OR ") + ")")
  }

  function Bodies(stmts: seq<Statement>): seq<string> {
    seq(|stmts|, i requires 0 <= i < |stmts| => BodyText(stmts[i]))
  }

  /** The text the adapter hands to the database driver. */
  function SqlText(stmts: seq<Statement>): string {
    Join(Terminated(Bodies(stmts)), "\n\n")
  }

  // ---- which statements survive the trip ----

  /** No identifier and no literal holds a newline, and no column type ends in a semicolon. */
  predicate Clean(s: Statement) {
    NoNewline(s.table) &&
    match s
    case Create(_, columns) => forall i ::
                                 0 <= i < |columns| ==> NoNewline(columns[i].name) && CleanType(columns[i].sqlType)
    case CreateLink(_, lc, lt, rc, rt, linkKey) => NoNewline(lc) && NoNewline(rc) && NoNewline(lt) && NoNewline(rt) &&
                                                   CleanNames(linkKey)
    case Upsert(_, pk, row) => CleanNames(pk) && CleanRow(row)
    case DeleteExcept(_, keep) => forall i :: 0 <= i < |keep| ==> CleanRow(keep[i])
  }

  lemma {:induction false} QuotedIsClean(s: string)
    requires NoNewline(s)
    ensures NoNewline(QuoteIdentifier(s))
    decreases |s|
  {
    EscapedIsClean(s);
  }

  lemma {:induction false} EscapedIsClean(s: string)
    requires NoNewline(s)
    ensures NoNewline(EscapeIdentifier(s))
    decreases |s|
  {
    if s != "" {
      EscapedIsClean(s[1..]);
    }
  }

  lemma QuoteAllIsClean(names: seq<string>)
    requires CleanNames(names)
    ensures CleanNames(QuoteAll(names))
  {
    forall i | 0 <= i < |names| ensures NoNewline(QuoteAll(names)[i]) { QuotedIsClean(names[i]); }
  }

  lemma {:induction false} UpdatesAreClean(columns: seq<string>, pk: seq<string>)
    requires CleanNames(columns)
    ensures CleanNames(UpdateTexts(columns, pk))
    decreases |columns|
  {
    if columns != [] {
      UpdatesAreClean(columns[..|columns| - 1], pk);
      QuotedIsClean(columns[|columns| - 1]);
    }
  }

  lemma HeadIsBody(table: string)
    requires NoNewline(table)
    ensures Body(CreateHead(table)) && EndsOpen(CreateHead(table))
  {
    QuotedIsClean(table);
    NoNewlineIsCalm(CreateHead(table));
  }

  lemma LinkLinesAreClean(lc: string, lt: string, rc: string, rt: string, linkKey: seq<string>)
    requires NoNewline(lc) && NoNewline(lt) && NoNewline(rc) && NoNewline(rt) && CleanNames(linkKey)
    ensures var lines := LinkLines(lc, lt, rc, rt, linkKey);
            forall i :: 0 <= i < |lines| ==> NoNewline(lines[i]) && EndsOpen(lines[i])
  {
    QuotedIsClean(lc);
    QuotedIsClean(rc);
    QuotedIsClean(if |linkKey| >= 2 then linkKey[0] else lc);
    QuotedIsClean(if |linkKey| >= 2 then linkKey[1] else rc);
  }

  lemma ConflictIsClean(columns: seq<string>, pk: seq<string>)
    requires CleanNames(columns) && CleanNames(pk)
    ensures NoNewline(ConflictText(columns, pk))
  {
    QuoteAllIsClean(pk);
    JoinIsClean(QuoteAll(pk), ", ");
    UpdatesAreClean(columns, pk);
    JoinIsClean(UpdateTexts(columns, pk), ", ");
  }

  lemma {:induction false} LastOfJoin(parts: seq<string>, sep: string, c: char)
    requires parts != [] && forall i :: 0 <= i < |parts| ==> parts[i] != "" && parts[i][|parts[i]| - 1] == c
    ensures Join(parts, sep) != "" && Join(parts, sep)[|Join(parts, sep)| - 1] == c
    decreases |parts|
  {
    if |parts| > 1 {
      LastOfJoin(parts[1..], sep, c);
    }
  }

  lemma {:induction false} UpdatesEndQuoted(columns: seq<string>, pk: seq<string>)
    ensures forall i :: 0 <= i < |UpdateTexts(columns, pk)| ==>
      UpdateTexts(columns, pk)[i] != "" && UpdateTexts(columns, pk)[i][|UpdateTexts(columns, pk)[i]| - 1] == '"'
    decreases |columns|
  {
    if columns != [] {
      UpdatesEndQuoted(columns[..|columns| - 1], pk);
    }
  }

  lemma ConflictEndsTight(columns: seq<string>, pk: seq<string>)
    ensures ConflictText(columns, pk) == "" || Tight(ConflictText(columns, pk))
  {
    var updates := UpdateTexts(columns, pk);
    var target := " ON CONFLICT (" + Join(QuoteAll(pk), ", ") + ")";
    if updates != [] {
      UpdatesEndQuoted(columns, pk);
      LastOfJoin(updates, ", ", '"');
      TightConcat(" DO UPDATE SET ", Join(updates, ", "));
      TightConcat(target, " DO UPDATE SET " + Join(updates, ", "));
    } else {
      TightConcat(target, " DO NOTHING");
    }
  }

  lemma UpsertIsBody(table: string, pk: seq<string>, row: LiteralRow)
    requires NoNewline(table) && CleanNames(pk) && CleanRow(row)
    ensures Body(BodyText(Upsert(table, pk, row))) && Tight(BodyText(Upsert(table, pk, row)))
  {
    QuotedIsClean(table);
    QuoteAllIsClean(row.columns);
    JoinIsClean(QuoteAll(row.columns), ", ");
    JoinIsClean(row.values, ", ");
    ConflictIsClean(row.columns, pk);
    ConflictEndsTight(row.columns, pk);
    var front :=
        "INSERT INTO " + QuoteIdentifier(table) + " (" + Join(QuoteAll(row.columns), ", ") + ") VALUES (" +
        Join(row.values, ", ") + ")";
    if ConflictText(row.columns, pk) != "" { TightConcat(front, ConflictText(row.columns, pk)); }
    NoNewlineIsCalm(BodyText(Upsert(table, pk, row)));
  }

  lemma ClausesAreClean(keep: seq<LiteralRow>)
    requires forall i :: 0 <= i < |keep| ==> CleanRow(keep[i])
    ensures CleanNames(ClauseTexts(keep))
  {
    forall i | 0 <= i < |keep| ensures NoNewline(ClauseTexts(keep)[i]) {
      var texts := EqualTexts(keep[i]);
      forall j | 0 <= j < |texts| ensures NoNewline(texts[j]) { QuotedIsClean(keep[i].columns[j]); }
      JoinIsClean(texts, " AND ");
    }
  }

  lemma DeleteIsBody(table: string, keep: seq<LiteralRow>)
    requires Clean(DeleteExcept(table, keep))
    ensures Body(BodyText(DeleteExcept(table, keep))) && Tight(BodyText(DeleteExcept(table, keep)))
  {
    QuotedIsClean(table);
    ClausesAreClean(keep);
    JoinIsClean(ClauseTexts(keep), " OR ");
    NoNewlineIsCalm(BodyText(DeleteExcept(table, keep)));
  }

  lemma CleanTextIsBody(s: Statement)
    requires Clean(s)
    ensures Body(BodyText(s)) && Tight(BodyText(s))
  {
    match s
    case Create(table, columns) =>
      var lines := ColumnTexts(columns);
      forall i | 0 <= i < |lines| ensures NoNewline(lines[i]) && EndsOpen(lines[i]) { QuotedIsClean(columns[i].name); }
      HeadIsBody(table);
      LinesInBlock(CreateHead(table), lines);
    case CreateLink(table, lc, lt, rc, rt, linkKey) =>
      LinkLinesAreClean(lc, lt, rc, rt, linkKey);
      HeadIsBody(table);
      LinesInBlock(CreateHead(table), LinkLines(lc, lt, rc, rt, linkKey));
    case Upsert(table, pk, row) => UpsertIsBody(table, pk, row);
    case DeleteExcept(table, keep) => DeleteIsBody(table, keep);
  }

  /** The round trip: splitting the text gives back exactly the statements printed, whatever the
      rows' strings contain, so a run that applies all of them applies as many as were printed. */
  lemma TextSplitsIntoItsStatements(stmts: seq<Statement>)
    requires stmts != [] && forall i :: 0 <= i < |stmts| ==> Clean(stmts[i])
    ensures Split(SqlText(stmts)) == Terminated(Bodies(stmts))
  {
    forall i | 0 <= i < |stmts| ensures Body(Bodies(stmts)[i]) && Tight(Bodies(stmts)[i]) {
      CleanTextIsBody(stmts[i]);
    }
    SplitGivesBack(Bodies(stmts));
  }

  // ---- the programs of plans are clean ----

  function Printing(printer: Printer): Value -> string {
    LiteralOf(PostgresSql, printer)
  }

  lemma {:induction false} PrimaryKeysAreClean(plan: seq<Op>, t: string)
    requires forall i :: 0 <= i < |plan| ==> CleanOp(plan[i])
    ensures CleanNames(PkFor(PrimaryKeysOf(plan), t))
    decreases |plan|
  {
    if plan != [] {
      var front, op := plan[..|plan| - 1], plan[|plan| - 1];
      PrimaryKeysAreClean(front, t);
      assert CleanOp(op);
      if op.CreateTable? && op.table == t {
        var before, more := PkFor(PrimaryKeysOf(front), t), PrimaryKeyColumns(op.columns);
        KeyColumnsAreClean(op.columns);
        assert forall i ::
                 0 <= i < |before + more| ==> (before + more)[i] == if i < |before| then before[i]
                 else more[i - |before|];
      }
    }
  }

  lemma {:induction false} ExportIsClean(printer: Printer, pks: map<string, seq<string>>, ops: seq<Op>)
    requires SingleLinePrinter(printer) && (forall t :: CleanNames(PkFor(pks, t)))
    requires forall i :: 0 <= i < |ops| ==> CleanOp(ops[i])
    ensures forall s :: s in Exported(Printing(printer), pks, ops).lines ==> Clean(s)
    decreases |ops|
  {
    if ops != [] {
      var front, op := ops[..|ops| - 1], ops[|ops| - 1];
      ExportIsClean(printer, pks, front);
      if op.InsertRows? {
        var e, printed := Exported(Printing(printer), pks, front), PrintedAll(Printing(printer), op.rows);
        PrintedRowsAreClean(PostgresSql, printer, op.rows);
        KeptAreRows(op.table, printed, PkFor(pks, op.table), SeenIn(e.seen, op.table));
      }
    }
  }

  /** The round trip for whole plans: names and types without newlines are enough. */
  lemma PlanTextSplits(printer: Printer, plan: seq<Op>)
    requires SingleLinePrinter(printer) && forall i :: 0 <= i < |plan| ==> CleanOp(plan[i])
    ensures var stmts := Program(Printing(printer), plan);
            stmts != [] ==> Split(SqlText(stmts)) == Terminated(Bodies(stmts))
  {
    var stmts := Program(Printing(printer), plan);
    forall t ensures CleanNames(PkFor(PrimaryKeysOf(plan), t)) { PrimaryKeysAreClean(plan, t); }
    ExportIsClean(printer, PrimaryKeysOf(plan), plan);
    if stmts != [] {
      assert forall i :: 0 <= i < |stmts| ==> stmts[i] in stmts;
      TextSplitsIntoItsStatements(stmts);
    }
  }
}
