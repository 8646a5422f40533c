/** ClickHouse statements as text. Identifiers are printed as they are, without quotes. */
module ClickHouseText {
  import opened Common
  import opened Plans
  import opened Programs
  import opened Literals
  import opened Dedup
  import opened StatementText
  import opened ClickHouse
  import opened ClickHouseExport

  function ToUpper(s: string): string {
    seq(|s|, i requires 0 <= i < |s| => if 'a' <= s[i] <= 'z' then (s[i] as int - 32) as char else s[i])
  }

  function TranslateType(sqlType: string): string
    decreases |sqlType|
  {
    var clean := TrimSpace(ToUpper(sqlType));
    if |clean| >= 2 && clean[|clean| - 2..] == "[]" then
      TrimShortens(ToUpper(sqlType));
      "Array(" + TranslateType(clean[..|clean| - 2]) + ")"
    else ScalarType(clean)
  }

  function ScalarType(clean: string): string {
    if clean == "INTEGER" then "Int32"
    else if clean == "BIGINT" then "Int64"
    else if clean == "REAL" then "Float32"
    else if clean == "DOUBLE PRECISION" then "Float64"
    else if clean == "BOOLEAN" then "Bool"
    else "String"
  }

  lemma {:induction false} TrimShortens(s: string)
    ensures |TrimSpace(s)| <= |s|
  {
    TrimLeftShortens(s);
    TrimRightIs(TrimLeft(s));
  }

  lemma {:induction false} TrimLeftShortens(s: string)
    ensures |TrimLeft(s)| <= |s|
    decreases |s|
  {
    if s != "" && IsSpace(s[0]) {
      TrimLeftShortens(s[1..]);
    }
  }

  function ColumnType(c: Column): string {
    var base := TranslateType(c.sqlType);
    if c.primaryKey then base
    else if c.nullable && !("Array(" <= base) then "Nullable(" + base + ")"
    else base
  }

  function ColumnText(c: Column): string {
    "  " + c.name + " " + ColumnType(c)
  }

  function ColumnTexts(columns: seq<Column>): seq<string> {
    seq(|columns|, i requires 0 <= i < |columns| => ColumnText(columns[i]))
  }

  function OrderBy(pk: seq<string>): string {
    if pk == [] then "tuple()" else "(" + Join(pk, ", ") + ")"
  }

  function CreateHead(table: string): string {
    "CREATE TABLE IF NOT EXISTS " + table + " ("
  }

  function Engine(pk: seq<string>): string {
    "\nENGINE = MergeTree()\nORDER BY " + OrderBy(pk)
  }

  function EqualTexts(row: LiteralRow, pk: seq<string>): seq<string> {
    if pk == [] then []
    else
      var front, c := EqualTexts(row, pk[..|pk| - 1]), pk[|pk| - 1];
      if Carries(row, c) then front + [c + " = " + Field(row, c)] else front
  }

  function ConditionText(row: LiteralRow, pk: seq<string>): string {
    if EqualTexts(row, pk) == [] then "1 = 0" else "(" + Join(EqualTexts(row, pk), " AND ") + ")"
  }

  function ConditionTexts(rows: seq<LiteralRow>, pk: seq<string>): seq<string> {
    seq(|rows|, i requires 0 <= i < |rows| => ConditionText(rows[i], pk))
  }

  /** The statement without its closing semicolon. */
  function BodyText(s: Statement): string {
    match s
    case Create(table, columns) =>
      CreateHead(table) + "\n" + Join(ColumnTexts(columns), ",\n") + "\n)" + Engine(PrimaryKeyColumns(columns))
    case CreateLink(table, lc, lt, rc, rt, linkKey) =>
      CreateHead(table) + "\n" +
      Join(["  " + lc + " " + TranslateType(lt), "  " + rc + " " + TranslateType(rt)], ",\n") + "\n)" +
      Engine(if linkKey != [] then linkKey else [lc, rc])
    case Insert(table, row) =>
      "INSERT INTO " + table + " (" + Join(row.columns, ", ") + ") VALUES (" + Join(row.values, ", ") + ")"
    case DeleteWhere(table, pk, rows) => "ALTER TABLE " + table + " DELETE WHERE " +
                                         Join(ConditionTexts(rows, pk), " OR ")
    case Truncate(table) => "TRUNCATE TABLE " + table
  }

  function Bodies(stmts: seq<Statement>): seq<string> {
    seq(|stmts|, i requires 0 <= i < |stmts| => BodyText(stmts[i]))
  }

  function SqlText(stmts: seq<Statement>): string {
    Join(Terminated(Bodies(stmts)), "\n\n")
  }

  /** No identifier and no literal holds a newline; a delete has a condition. */
  predicate Clean(s: Statement) {
    NoNewline(s.table) &&
    match s
    case Create(_, columns) => forall i :: 0 <= i < |columns| ==> NoNewline(columns[i].name)
    case CreateLink(_, lc, _, rc, _, linkKey) => NoNewline(lc) && NoNewline(rc) && CleanNames(linkKey)
    case Insert(_, row) => CleanRow(row)
    case DeleteWhere(_, pk, rows) => rows != [] && CleanNames(pk) && forall i :: 0 <= i < |rows| ==> CleanRow(rows[i])
    case Truncate(_) => true
  }

  // ---- the texts are statement bodies ----

  /** A type text: one line that ends in neither white space nor a semicolon. */
  predicate TypeText(s: string) {
    NoNewline(s) && Tight(s)
  }

  lemma {:induction false} TranslatedIsTypeText(sqlType: string)
    ensures TypeText(TranslateType(sqlType))
    decreases |sqlType|
  {
    var clean := TrimSpace(ToUpper(sqlType));
    if |clean| >= 2 && clean[|clean| - 2..] == "[]" {
      TrimShortens(ToUpper(sqlType));
      TranslatedIsTypeText(clean[..|clean| - 2]);
      WrappedIsTypeText(TranslateType(clean[..|clean| - 2]));
    } else {
      ScalarIsTypeText(clean);
    }
  }

  lemma WrappedIsTypeText(inner: string)
    requires NoNewline(inner)
    ensures TypeText("Array(" + inner + ")")
  {
  }

  lemma ScalarIsTypeText(clean: string)
    ensures TypeText(ScalarType(clean))
  {
  }

  lemma ColumnTextsAreLines(columns: seq<Column>)
    requires forall i :: 0 <= i < |columns| ==> NoNewline(columns[i].name)
    ensures var lines := ColumnTexts(columns);
            forall i :: 0 <= i < |lines| ==> NoNewline(lines[i]) && EndsOpen(lines[i])
  {
    forall i | 0 <= i < |columns| ensures NoNewline(ColumnTexts(columns)[i]) && EndsOpen(ColumnTexts(columns)[i]) {
      ColumnTypeIsTypeText(columns[i]);
      TypeEndsLine("  " + columns[i].name + " ", ColumnType(columns[i]));
    }
  }

  lemma ColumnTypeIsTypeText(c: Column)
    ensures TypeText(ColumnType(c))
  {
    TranslatedIsTypeText(c.sqlType);
  }

  lemma TypeEndsLine(before: string, t: string)
    requires NoNewline(before) && TypeText(t)
    ensures NoNewline(before + t) && EndsOpen(before + t)
  {
    assert (before + t)[|before + t| - 1] == t[|t| - 1];
  }

  lemma EngineIsCalm(pk: seq<string>)
    requires CleanNames(pk)
    ensures Calm(Engine(pk)) && Tight(Engine(pk))
  {
    JoinIsClean(pk, ", ");
    var order := OrderBy(pk);
    var head := "\nENGINE = MergeTree()\nORDER BY ";
    assert NoNewline(order) && Tight(order);
    NoNewlineIsCalm(order);
    CalmConcat(head, order);
    TightConcat(head, order);
  }

  lemma HeadIsBody(table: string)
    requires NoNewline(table)
    ensures Body(CreateHead(table)) && EndsOpen(CreateHead(table))
  {
    NoNewlineIsCalm(CreateHead(table));
  }

  lemma WithEngine(block: string, pk: seq<string>)
    requires Body(block) && Tight(block) && CleanNames(pk)
    ensures Body(block + Engine(pk)) && Tight(block + Engine(pk))
  {
    EngineIsCalm(pk);
    CalmConcat(block, Engine(pk));
    TightConcat(block, Engine(pk));
  }

  lemma InsertIsBody(table: string, row: LiteralRow)
    requires NoNewline(table) && CleanRow(row)
    ensures Body(BodyText(Insert(table, row))) && Tight(BodyText(Insert(table, row)))
  {
    JoinIsClean(row.columns, ", ");
    JoinIsClean(row.values, ", ");
    NoNewlineIsCalm(BodyText(Insert(table, row)));
  }

  lemma {:induction false} EqualTextsAreClean(row: LiteralRow, pk: seq<string>)
    requires CleanRow(row) && CleanNames(pk)
    ensures CleanNames(EqualTexts(row, pk))
    decreases |pk|
  {
    if pk != [] {
      EqualTextsAreClean(row, pk[..|pk| - 1]);
    }
  }

  lemma ConditionIsClean(row: LiteralRow, pk: seq<string>)
    requires CleanRow(row) && CleanNames(pk)
    ensures NoNewline(ConditionText(row, pk)) && Tight(ConditionText(row, pk))
  {
    EqualTextsAreClean(row, pk);
    JoinIsClean(EqualTexts(row, pk), " AND ");
  }

  lemma {:induction false} JoinIsTight(parts: seq<string>, sep: string)
    requires parts != [] && forall i :: 0 <= i < |parts| ==> Tight(parts[i])
    ensures Tight(Join(parts, sep))
    decreases |parts|
  {
    if |parts| > 1 {
      JoinIsTight(parts[1..], sep);
      TightConcat(parts[0] + sep, Join(parts[1..], sep));
    }
  }

  lemma DeleteIsBody(table: string, pk: seq<string>, rows: seq<LiteralRow>)
    requires Clean(DeleteWhere(table, pk, rows))
    ensures Body(BodyText(DeleteWhere(table, pk, rows))) && Tight(BodyText(DeleteWhere(table, pk, rows)))
  {
    var texts := ConditionTexts(rows, pk);
    forall i | 0 <= i < |rows| ensures NoNewline(texts[i]) && Tight(texts[i]) { ConditionIsClean(rows[i], pk); }
    JoinIsClean(texts, " OR ");
    JoinIsTight(texts, " OR ");
    TightConcat("ALTER TABLE " + table + " DELETE WHERE ", Join(texts, " OR "));
    NoNewlineIsCalm(BodyText(DeleteWhere(table, pk, rows)));
  }

  /** The end of a table name that survives being trimmed and closed. */
  predicate SteadyName(table: string) {
    table != "" && !IsSpace(table[|table| - 1]) && table[|table| - 1] != ';'
  }

  lemma TruncateIsBody(table: string)
    requires NoNewline(table)
    ensures Body(BodyText(Truncate(table)))
    ensures Tight(BodyText(Truncate(table))) <==> SteadyName(table)
  {
    NoNewlineIsCalm(BodyText(Truncate(table)));
    if table != "" {
      assert BodyText(Truncate(table))[|BodyText(Truncate(table))| - 1] == table[|table| - 1];
    }
  }

  lemma CleanTextIsBody(s: Statement)
    requires Clean(s)
    ensures Body(BodyText(s))
    ensures Tight(BodyText(s)) <==> (s.Truncate? ==> SteadyName(s.table))
  {
    match s
    case Create(table, columns) =>
      HeadIsBody(table);
      ColumnTextsAreLines(columns);
      LinesInBlock(CreateHead(table), ColumnTexts(columns));
      KeyColumnsAreClean(columns);
      WithEngine(CreateHead(table) + "\n" + Join(ColumnTexts(columns), ",\n") + "\n)", PrimaryKeyColumns(columns));
    case CreateLink(table, lc, lt, rc, rt, linkKey) =>
      LinkIsBody(table, lc, lt, rc, rt, linkKey);
    case Insert(table, row) => InsertIsBody(table, row);
    case DeleteWhere(table, pk, rows) => DeleteIsBody(table, pk, rows);
    case Truncate(table) => TruncateIsBody(table);
  }

  lemma LinkIsBody(table: string, lc: string, lt: string, rc: string, rt: string, linkKey: seq<string>)
    requires Clean(CreateLink(table, lc, lt, rc, rt, linkKey))
    ensures Body(BodyText(CreateLink(table, lc, lt, rc, rt, linkKey))) &&
            Tight(BodyText(CreateLink(table, lc, lt, rc, rt, linkKey)))
  {
    var lines := ["  " + lc + " " + TranslateType(lt), "  " + rc + " " + TranslateType(rt)];
    TranslatedIsTypeText(lt);
    TranslatedIsTypeText(rt);
    HeadIsBody(table);
    assert NoNewline(lines[0]) && NoNewline(lines[1]) && EndsOpen(lines[0]) && EndsOpen(lines[1]);
    LinesInBlock(CreateHead(table), lines);
    WithEngine(CreateHead(table) + "\n" + Join(lines, ",\n") + "\n)", if linkKey != [] then linkKey else [lc, rc]);
  }

  /** The round trip on ClickHouse: as many statements come out as went in, and they are the
      printed ones exactly when no truncate but the last statement names a table that ends in
      white space or a semicolon. */
  lemma TextSplitsExactlyWhenSteady(stmts: seq<Statement>)
    requires stmts != [] && forall i :: 0 <= i < |stmts| ==> Clean(stmts[i])
    ensures |Split(SqlText(stmts))| == |stmts|
    ensures Split(SqlText(stmts)) == Terminated(Bodies(stmts)) <==>
              forall i :: 0 <= i < |stmts| - 1 ==> (stmts[i].Truncate? ==> SteadyName(stmts[i].table))
  {
    forall i | 0 <= i < |stmts|
      ensures Body(Bodies(stmts)[i]) &&
              (Tight(Bodies(stmts)[i]) <==> (stmts[i].Truncate? ==> SteadyName(stmts[i].table)))
    {
      CleanTextIsBody(stmts[i]);
    }
    SplitGivesBack(Bodies(stmts));
  }
}
