/** The text of a Postgres statement says what the statement says: reading it gives the statement
    back. */
module PostgresReadBack {
  import opened Common
  import opened Plans
  import opened Literals
  import opened StatementText
  import opened SqlReader
  import opened Postgres
  import opened PostgresText
  import opened PostgresReader

  // ---- which statements can be read, and as what ----

  /** The type of a column that may be null ends its line. */
  predicate TypeEndsLine(t: string) {
    (t == "" || t[|t| - 1] != ',') && !EndsWith(t, " PRIMARY KEY") && !EndsWith(t, " NOT NULL")
  }

  predicate LegibleColumn(c: Column) {
    NoNewline(c.name) && NoNewline(c.sqlType) && (c.nullable && !c.primaryKey ==> TypeEndsLine(c.sqlType))
  }

  predicate LegibleRow(row: LiteralRow) {
    |row.columns| == |row.values| && AllSolid(STOPS, row.values)
  }

  /** Literals end where they end, a kept row pairs its columns with literals, and the lines of a
      create are lines. Nothing is asked of names outside creates. */
  predicate Legible(s: Statement) {
    match s
    case Create(_, columns) => forall i :: 0 <= i < |columns| ==> LegibleColumn(columns[i])
    case CreateLink(_, lc, lt, rc, rt, linkKey) =>
      NoNewline(lc) && NoNewline(rc) && NoNewline(lt) && NoNewline(rt) && CleanNames(linkKey)
    case Upsert(_, _, row) => AllSolid(STOPS, row.values)
    case DeleteExcept(_, keep) => forall i :: 0 <= i < |keep| ==> LegibleRow(keep[i])
  }

  function ShownColumn(c: Column): Column {
    c.(nullable := c.nullable && !c.primaryKey)
  }

  function ShownColumns(columns: seq<Column>): seq<Column> {
    seq(|columns|, i requires 0 <= i < |columns| => ShownColumn(columns[i]))
  }

  /** The statement as far as its text shows it: a key column is not said to be nullable, and a link
      table names its two key columns. */
  function Shown(s: Statement): Statement {
    match s
    case Create(table, columns) => Create(table, ShownColumns(columns))
    case CreateLink(table, lc, lt, rc, rt, linkKey) =>
      CreateLink(table, lc, lt, rc, rt, if |linkKey| >= 2 then linkKey[..2] else [lc, rc])
    case _ => s
  }

  // ---- upserts ----

  function UpdateOf(c: string): string {
    QuoteIdentifier(c) + " = EXCLUDED." + QuoteIdentifier(c)
  }

  function UpdatesOf(columns: seq<string>): seq<string> {
    seq(|columns|, i requires 0 <= i < |columns| => UpdateOf(columns[i]))
  }

  lemma {:induction false} WithoutKeyMore(columns: seq<string>, c: string, pk: seq<string>)
    ensures WithoutKey(columns + [c], pk) == WithoutKey(columns, pk) + (if c in pk then [] else [c])
    decreases |columns|
  {
    if columns == [] {
      assert columns + [c] == [c] && [c][1..] == [];
    } else {
      assert (columns + [c])[0] == columns[0] && (columns + [c])[1..] == columns[1..] + [c];
      WithoutKeyMore(columns[1..], c, pk);
    }
  }

  lemma {:induction false} UpdatesAre(columns: seq<string>, pk: seq<string>)
    ensures UpdateTexts(columns, pk) == UpdatesOf(WithoutKey(columns, pk))
    decreases |columns|
  {
    if columns != [] {
      var front, c := columns[..|columns| - 1], columns[|columns| - 1];
      UpdatesAre(front, pk);
      WithoutKeyMore(front, c, pk);
      assert columns == front + [c];
    }
  }

  lemma UpdateReadsBack(c: string, rest: string)
    requires rest == "" || ", " <= rest
    ensures ReadName(UpdateOf(c) + rest) ==
            Some((c, " = EXCLUDED." + (QuoteIdentifier(c) + rest)))
    ensures ReadName(QuoteIdentifier(c) + rest) == Some((c, rest))
    ensures Expect(" = EXCLUDED." + (QuoteIdentifier(c) + rest), " = EXCLUDED.") == Some(QuoteIdentifier(c) + rest)
  {
    var source := QuoteIdentifier(c) + rest;
    assert UpdateOf(c) + rest == QuoteIdentifier(c) + (" = EXCLUDED." + source);
    NameReadsBack(c, " = EXCLUDED." + source);
    NameReadsBack(c, rest);
    ExpectReads(" = EXCLUDED.", source);
  }

  lemma OneUpdate(t: string, c: string, rest: string, source: string)
    requires ReadName(t) == Some((c, rest)) && Expect(rest, " = EXCLUDED.") == Some(source)
    ensures ReadName(source) == Some((c, "")) ==> ReadUpdates(t) == Some([c])
    ensures forall end, more, columns ::
              ReadName(source) == Some((c, end)) && end != "" && Expect(end, ", ") == Some(more) &&
              ReadUpdates(more) == Some(columns) ==>
                ReadUpdates(t) == Some([c] + columns)
  {
  }

  lemma LastUpdate(c: string)
    ensures ReadUpdates(UpdateOf(c)) == Some([c])
  {
    UpdateReadsBack(c, "");
    assert UpdateOf(c) + "" == UpdateOf(c);
    OneUpdate(UpdateOf(c), c, " = EXCLUDED." + (QuoteIdentifier(c) + ""), QuoteIdentifier(c) + "");
  }

  lemma UpdateThenMore(c: string, more: string, columns: seq<string>)
    requires ReadUpdates(more) == Some(columns)
    ensures ReadUpdates(UpdateOf(c) + (", " + more)) == Some([c] + columns)
  {
    var end := ", " + more;
    UpdateReadsBack(c, end);
    ExpectReads(", ", more);
    OneUpdate(UpdateOf(c) + end, c, " = EXCLUDED." + (QuoteIdentifier(c) + end), QuoteIdentifier(c) + end);
  }

  lemma {:induction false} UpdatesReadBack(columns: seq<string>)
    requires columns != []
    ensures ReadUpdates(Join(UpdatesOf(columns), ", ")) == Some(columns)
    decreases |columns|
  {
    var texts, c := UpdatesOf(columns), columns[0];
    if |columns| == 1 {
      LastUpdate(c);
      assert columns == [c];
    } else {
      assert texts[1..] == UpdatesOf(columns[1..]);
      var more := Join(texts[1..], ", ");
      assert Join(texts, ", ") == texts[0] + (", " + more);
      UpdatesReadBack(columns[1..]);
      UpdateThenMore(c, more, columns[1..]);
      assert columns == [c] + columns[1..];
    }
  }

  lemma ConflictSteps(columns: seq<string>, t: string, inner: string, pk: seq<string>, action: string)
    requires t != "" && Expect(t, " ON CONFLICT (") == Some(inner) && ReadNamesInParens(inner) == Some((pk, action))
    requires pk != []
    ensures action == " DO NOTHING" && WithoutKey(columns, pk) == [] ==> ReadConflict(columns, t) == Some(pk)
    ensures forall sets ::
              action != " DO NOTHING" && Expect(action, " DO UPDATE SET ") == Some(sets) &&
              ReadUpdates(sets) == Some(WithoutKey(columns, pk)) ==>
                ReadConflict(columns, t) == Some(pk)
  {
  }

  function ActionOf(others: seq<string>): string {
    if others == [] then " DO NOTHING" else " DO UPDATE SET " + Join(UpdatesOf(others), ", ")
  }

  lemma ConflictTextIs(columns: seq<string>, pk: seq<string>)
    requires pk != []
    ensures ConflictText(columns, pk) ==
            " ON CONFLICT (" + (Join(QuoteAll(pk), ", ") + (")" + ActionOf(WithoutKey(columns, pk))))
  {
    UpdatesAre(columns, pk);
  }

  lemma ActionReads(others: seq<string>)
    requires others != []
    ensures ActionOf(others) != " DO NOTHING"
    ensures Expect(ActionOf(others), " DO UPDATE SET ") == Some(Join(UpdatesOf(others), ", "))
    ensures ReadUpdates(Join(UpdatesOf(others), ", ")) == Some(others)
  {
    ExpectReads(" DO UPDATE SET ", Join(UpdatesOf(others), ", "));
    UpdatesReadBack(others);
    assert ActionOf(others)[4] == 'U' && " DO NOTHING"[4] == 'N';
  }

  lemma ConflictReadsBack(columns: seq<string>, pk: seq<string>)
    ensures ReadConflict(columns, ConflictText(columns, pk)) == Some(pk)
  {
    if pk != [] {
      var others := WithoutKey(columns, pk);
      var inner := Join(QuoteAll(pk), ", ") + (")" + ActionOf(others));
      ConflictTextIs(columns, pk);
      ExpectReads(" ON CONFLICT (", inner);
      NamesInParensReadBack(pk, ActionOf(others));
      if others != [] {
        ActionReads(others);
      }
      ConflictSteps(columns, " ON CONFLICT (" + inner, inner, pk, ActionOf(others));
    }
  }

  lemma ValuesReadBack(columns: seq<string>, values: seq<string>, conflict: string)
    requires AllSolid(STOPS, values)
    ensures var list := Join(values, ", ") + (")" + conflict);
            && ReadListInParens(STOPS, list) == Some((values, conflict))
            && ReadNamesInParens(Join(QuoteAll(columns), ", ") + (")" + (" VALUES (" + list))) ==
               Some((columns, " VALUES (" + list))
            && Expect(" VALUES (" + list, " VALUES (") == Some(list)
  {
    var list := Join(values, ", ") + (")" + conflict);
    ParensReadBack(STOPS, values, conflict);
    NamesInParensReadBack(columns, " VALUES (" + list);
    ExpectReads(" VALUES (", list);
  }

  lemma InsertSteps(t: string, table: string, rest: string, inner: string, columns: seq<string>, more: string,
                    list: string, values: seq<string>, conflict: string, pk: seq<string>)
    requires ReadName(t) == Some((table, rest)) && Expect(rest, " (") == Some(inner)
    requires ReadNamesInParens(inner) == Some((columns, more)) && Expect(more, " VALUES (") == Some(list)
    requires ReadListInParens(STOPS, list) == Some((values, conflict)) && ReadConflict(columns, conflict) == Some(pk)
    ensures ReadInsert(t) == Some(Upsert(table, pk, InsertRow(columns, values)))
  {
  }

  lemma InsertText(table: string, names: string, values: string, conflict: string)
    ensures "INSERT INTO " + table + " (" + names + ") VALUES (" + values + ")" + conflict ==
            "INSERT INTO " + (table + (" (" + (names + (")" + (" VALUES (" + (values + (")" + conflict)))))))
  {
    var list := values + (")" + conflict);
    assert ") VALUES (" + list == ")" + (" VALUES (" + list);
  }

  lemma BodyIsInsert(t: string)
    ensures ReadBody("INSERT INTO " + t) == ReadInsert(t)
  {
    var text := "INSERT INTO " + t;
    assert text[0] == 'I' && text[12..] == t;
  }

  lemma InsertReadsBack(table: string, pk: seq<string>, row: LiteralRow)
    requires AllSolid(STOPS, row.values)
    ensures ReadBody(BodyText(Upsert(table, pk, row))) == Some(Upsert(table, pk, row))
  {
    var conflict := ConflictText(row.columns, pk);
    var list := Join(row.values, ", ") + (")" + conflict);
    var inner := Join(QuoteAll(row.columns), ", ") + (")" + (" VALUES (" + list));
    InsertText(QuoteIdentifier(table), Join(QuoteAll(row.columns), ", "), Join(row.values, ", "), conflict);
    NameReadsBack(table, " (" + inner);
    ExpectReads(" (", inner);
    ValuesReadBack(row.columns, row.values, conflict);
    ConflictReadsBack(row.columns, pk);
    InsertSteps(QuoteIdentifier(table) + (" (" + inner), table, " (" + inner, inner, row.columns, " VALUES (" + list,
                list, row.values, conflict, pk);
    BodyIsInsert(QuoteIdentifier(table) + (" (" + inner));
  }

  // ---- deletes ----

  function EqualOf(c: string, literal: string): string {
    QuoteIdentifier(c) + " = " + literal
  }

  lemma EqualStarts(c: string, literal: string, more: string)
    ensures ReadName(EqualOf(c, literal) + more) == Some((c, " = " + (literal + more)))
    ensures Expect(" = " + (literal + more), " = ") == Some(literal + more)
  {
    assert EqualOf(c, literal) + more == QuoteIdentifier(c) + (" = " + (literal + more));
    NameReadsBack(c, " = " + (literal + more));
    ExpectReads(" = ", literal + more);
  }

  lemma LastEqual(c: string, literal: string, rest: string)
    requires Solid(STOPS, literal)
    ensures ReadEquals(EqualOf(c, literal) + (")" + rest)) == Some((InsertRow([c], [literal]), ")" + rest))
  {
    EqualStarts(c, literal, ")" + rest);
    ChunkReadsBack(STOPS, Outside, 0, literal, ")" + rest);
    assert (")" + rest)[0] == ')';
  }

  lemma BeforeAnd(literal: string, more: string)
    requires Solid(STOPS, literal) && more != "" && more[0] == '"'
    ensures ReadChunk(STOPS, Outside, 0, literal + (" AND " + more)) == (literal + " AND ", more)
    ensures EndsWith(literal + " AND ", " AND ")
    ensures (literal + " AND ")[..|literal + " AND "| - 5] == literal
  {
    var chunk := literal + " AND ";
    assert literal + (" AND " + more) == chunk + more;
    FreeIsWhole(STOPS, 0, " AND ");
    WholeConcat(STOPS, 0, literal, " AND ");
    ChunkReadsBack(STOPS, Outside, 0, chunk, more);
  }

  lemma EqualThenMore(c: string, literal: string, more: string, row: LiteralRow, end: string)
    requires Solid(STOPS, literal) && more != "" && more[0] == '"' && ReadEquals(more) == Some((row, end))
    ensures ReadEquals(EqualOf(c, literal) + (" AND " + more)) == Some((ConsCell(c, literal, row), end))
  {
    EqualStarts(c, literal, " AND " + more);
    BeforeAnd(literal, more);
  }

  function RestOf(row: LiteralRow): LiteralRow
    requires row.columns != [] && row.values != []
  {
    InsertRow(row.columns[1..], row.values[1..])
  }

  lemma EqualTextsAre(row: LiteralRow)
    requires LegibleRow(row) && row.columns != []
    ensures var texts := EqualTexts(row);
            && |texts| == |row.columns| && texts[0] == EqualOf(row.columns[0], row.values[0])
            && texts[1..] == EqualTexts(RestOf(row)) && LegibleRow(RestOf(row))
            && row == ConsCell(row.columns[0], row.values[0], RestOf(row))
            && Join(texts, " AND ") != "" && Join(texts, " AND ")[0] == '"'
  {
    var texts := EqualTexts(row);
    assert texts[0][0] == '"';
    assert |texts| > 1 ==> Join(texts, " AND ")[0] == (texts[0] + " AND ")[0];
  }

  lemma {:induction false} EqualsReadBack(row: LiteralRow, rest: string)
    requires LegibleRow(row) && row.columns != []
    ensures ReadEquals(Join(EqualTexts(row), " AND ") + (")" + rest)) == Some((row, ")" + rest))
    decreases |row.columns|
  {
    var texts := EqualTexts(row);
    EqualTextsAre(row);
    if |texts| == 1 {
      LastEqual(row.columns[0], row.values[0], rest);
      assert row.columns == [row.columns[0]] && row.values == [row.values[0]];
    } else {
      EqualTextsAre(RestOf(row));
      var more := Join(texts[1..], " AND ") + (")" + rest);
      JoinMore(texts, " AND ", ")" + rest);
      EqualsReadBack(RestOf(row), rest);
      EqualThenMore(row.columns[0], row.values[0], more, RestOf(row), ")" + rest);
    }
  }

  function ClauseOf(row: LiteralRow): string {
    "(" + Join(EqualTexts(row), " AND ") + ")"
  }

  lemma ClauseText(row: LiteralRow, rest: string)
    ensures ClauseOf(row) + rest == "(" + (Join(EqualTexts(row), " AND ") + (")" + rest))
  {
  }

  lemma ClauseSteps(t: string, inner: string, row: LiteralRow, rest: string)
    requires Expect(t, "(") == Some(inner)
    ensures Expect(inner, ")") == Some(rest) ==> ReadClause(t) == Some((InsertRow([], []), rest))
    ensures Expect(inner, ")") == None && ReadEquals(inner) == Some((row, ")" + rest)) ==>
              ReadClause(t) == Some((row, rest))
  {
    ExpectReads(")", rest);
  }

  lemma ClauseReadsBack(row: LiteralRow, rest: string)
    requires LegibleRow(row)
    ensures ReadClause(ClauseOf(row) + rest) == Some((row, rest))
  {
    var inner := Join(EqualTexts(row), " AND ") + (")" + rest);
    ClauseText(row, rest);
    ExpectReads("(", inner);
    ClauseSteps("(" + inner, inner, row, rest);
    if row.columns == [] {
      assert EqualTexts(row) == [] && inner == ")" + rest;
      ExpectReads(")", rest);
      assert row == InsertRow([], []);
    } else {
      EqualTextsAre(row);
      assert inner[0] == '"';
      EqualsReadBack(row, rest);
    }
  }

  lemma LastClause(row: LiteralRow)
    requires LegibleRow(row)
    ensures ReadClauses(ClauseOf(row) + ")") == Some([row])
  {
    ClauseReadsBack(row, ")");
  }

  lemma ClauseThenMore(row: LiteralRow, more: string, rows: seq<LiteralRow>)
    requires LegibleRow(row) && ReadClauses(more) == Some(rows)
    ensures ReadClauses(ClauseOf(row) + (" OR " + more)) == Some([row] + rows)
  {
    ClauseReadsBack(row, " OR " + more);
    ExpectReads(" OR ", more);
    assert (" OR " + more)[0] == ' ';
  }

  lemma ClausesAre(keep: seq<LiteralRow>)
    requires keep != []
    ensures keep == [keep[0]] + keep[1..]
    ensures var text := Join(ClauseTexts(keep), " OR ") + ")";
            text == if |keep| == 1 then ClauseOf(keep[0]) + ")"
                    else ClauseOf(keep[0]) + (" OR " + (Join(ClauseTexts(keep[1..]), " OR ") + ")"))
  {
    var texts := ClauseTexts(keep);
    assert texts[0] == ClauseOf(keep[0]) && texts[1..] == ClauseTexts(keep[1..]);
    if |keep| > 1 {
      JoinMore(texts, " OR ", ")");
    }
  }

  lemma {:induction false} ClausesReadBack(keep: seq<LiteralRow>)
    requires keep != [] && forall i :: 0 <= i < |keep| ==> LegibleRow(keep[i])
    ensures ReadClauses(Join(ClauseTexts(keep), " OR ") + ")") == Some(keep)
    decreases |keep|
  {
    ClausesAre(keep);
    if |keep| == 1 {
      LastClause(keep[0]);
      assert keep == [keep[0]];
    } else {
      ClausesReadBack(keep[1..]);
      ClauseThenMore(keep[0], Join(ClauseTexts(keep[1..]), " OR ") + ")", keep[1..]);
    }
  }

  lemma DeleteSteps(t: string, table: string, rest: string, inner: string, keep: seq<LiteralRow>)
    requires ReadName(t) == Some((table, rest)) && rest != ""
    requires Expect(rest, " WHERE NOT (") == Some(inner) && ReadClauses(inner) == Some(keep)
    ensures ReadDelete(t) == Some(DeleteExcept(table, keep))
  {
  }

  lemma BodyIsDelete(t: string)
    ensures ReadBody("DELETE FROM " + t) == ReadDelete(t)
  {
    var text := "DELETE FROM " + t;
    assert text[0] == 'D' && text[12..] == t;
  }

  lemma DeleteReadsBack(table: string, keep: seq<LiteralRow>)
    requires Legible(DeleteExcept(table, keep))
    ensures ReadBody(BodyText(DeleteExcept(table, keep))) == Some(DeleteExcept(table, keep))
  {
    if keep == [] {
      NameReadsBack(table, "");
      assert BodyText(DeleteExcept(table, keep)) == "DELETE FROM " + (QuoteIdentifier(table) + "");
      BodyIsDelete(QuoteIdentifier(table) + "");
    } else {
      var inner := Join(ClauseTexts(keep), " OR ") + ")";
      var rest := " WHERE NOT (" + inner;
      assert BodyText(DeleteExcept(table, keep)) == "DELETE FROM " + (QuoteIdentifier(table) + rest);
      NameReadsBack(table, rest);
      ExpectReads(" WHERE NOT (", inner);
      ClausesReadBack(keep);
      DeleteSteps(QuoteIdentifier(table) + rest, table, rest, inner, keep);
      BodyIsDelete(QuoteIdentifier(table) + rest);
    }
  }

  // ---- creates ----

  function TailOf(c: Column): string {
    c.sqlType + (if c.primaryKey then " PRIMARY KEY" else if !c.nullable then " NOT NULL" else "")
  }

  lemma TypeReadsBack(c: Column)
    requires LegibleColumn(c)
    ensures ReadType(c.name, TailOf(c)) == ShownColumn(c)
  {
    var t := TailOf(c);
    if c.primaryKey {
      assert EndsWith(t, " PRIMARY KEY") && t[..|t| - 12] == c.sqlType;
    } else if !c.nullable {
      assert t[|t| - 1] == 'L' && " PRIMARY KEY"[11] == 'Y';
      assert EndsWith(t, " NOT NULL") && t[..|t| - 9] == c.sqlType;
    } else {
      assert t == c.sqlType;
    }
  }

  lemma ColumnReadsBack(c: Column)
    requires LegibleColumn(c)
    ensures ReadColumn(ColumnText(c)) == Some(ShownColumn(c))
  {
    var named := QuoteIdentifier(c.name) + (" " + TailOf(c));
    assert ColumnText(c) == "  " + named;
    ExpectReads("  ", named);
    NameReadsBack(c.name, " " + TailOf(c));
    ExpectReads(" ", TailOf(c));
    TypeReadsBack(c);
  }

  lemma ColumnIsLine(c: Column)
    requires LegibleColumn(c)
    ensures ColumnLine(ColumnText(c)) && ColumnText(c) != "" && !("  PRIMARY KEY (" <= ColumnText(c))
  {
    QuotedIsClean(c.name);
    var t := ColumnText(c);
    assert t[2] == '"' && "  PRIMARY KEY ("[2] == 'P';
    if c.primaryKey {
      assert t[|t| - 1] == 'Y';
    } else if !c.nullable {
      assert t[|t| - 1] == 'L';
    } else if c.sqlType == "" {
      assert t[|t| - 1] == ' ';
    } else {
      assert t[|t| - 1] == c.sqlType[|c.sqlType| - 1];
    }
  }

  lemma FirstColumn(columns: seq<Column>)
    requires columns != []
    ensures var lines := ColumnTexts(columns);
            && lines != [] && lines[0] == ColumnText(columns[0]) && lines[1..] == ColumnTexts(columns[1..])
            && ShownColumns(columns) == [ShownColumn(columns[0])] + ShownColumns(columns[1..])
  {
  }

  lemma ColumnThenMore(lines: seq<string>, c: Column, columns: seq<Column>)
    requires lines != [] && ReadColumn(lines[0]) == Some(c) && ReadColumns(lines[1..]) == Some(columns)
    ensures ReadColumns(lines) == Some([c] + columns)
  {
  }

  lemma {:induction false} ColumnsReadBack(columns: seq<Column>)
    requires forall i :: 0 <= i < |columns| ==> LegibleColumn(columns[i])
    ensures ReadColumns(ColumnTexts(columns)) == Some(ShownColumns(columns))
    decreases |columns|
  {
    if columns != [] {
      FirstColumn(columns);
      ColumnReadsBack(columns[0]);
      ColumnsReadBack(columns[1..]);
      ColumnThenMore(ColumnTexts(columns), ShownColumn(columns[0]), ShownColumns(columns[1..]));
    } else {
      assert ColumnTexts(columns) == [] && ShownColumns(columns) == [];
    }
  }

  lemma TableReadsBack(table: string, columns: seq<Column>)
    requires columns != [] && forall i :: 0 <= i < |columns| ==> LegibleColumn(columns[i])
    ensures ReadTable(table, ColumnTexts(columns)) == Some(Create(table, ShownColumns(columns)))
  {
    ColumnsReadBack(columns);
    ColumnIsLine(columns[0]);
    if |columns| == 3 {
      ColumnIsLine(columns[2]);
      assert Expect(ColumnTexts(columns)[2], "  PRIMARY KEY (") == None;
    }
  }

  lemma CreateSteps(t: string, table: string, rest: string, block: string, lines: seq<string>)
    requires ReadName(t) == Some((table, rest)) && Expect(rest, " (\n") == Some(block)
    requires ReadLines(block) == Some((lines, ""))
    ensures ReadCreate(t) == ReadTable(table, lines)
  {
  }

  lemma BodyIsCreate(t: string)
    ensures ReadBody("CREATE TABLE IF NOT EXISTS " + t) == ReadCreate(t)
  {
    var text := "CREATE TABLE IF NOT EXISTS " + t;
    assert text[27..] == t;
  }

  lemma BlockText(table: string, lines: string)
    ensures CreateHead(table) + "\n" + lines + "\n)" ==
            "CREATE TABLE IF NOT EXISTS " + (QuoteIdentifier(table) + (" (\n" + (lines + ("\n)" + ""))))
  {
    var block := lines + ("\n)" + "");
    assert block == lines + "\n)";
    assert " (" + ("\n" + block) == " (\n" + block;
  }

  /** A block of lines after the head of a create. */
  lemma BlockReadsBack(table: string, lines: seq<string>)
    requires lines != [] && forall i :: 0 <= i < |lines| ==> ColumnLine(lines[i])
    ensures ReadBody(CreateHead(table) + "\n" + Join(lines, ",\n") + "\n)") == ReadTable(table, lines)
  {
    var block := Join(lines, ",\n") + ("\n)" + "");
    BlockText(table, Join(lines, ",\n"));
    NameReadsBack(table, " (\n" + block);
    ExpectReads(" (\n", block);
    LinesReadBack(lines, "");
    CreateSteps(QuoteIdentifier(table) + (" (\n" + block), table, " (\n" + block, block, lines);
    BodyIsCreate(QuoteIdentifier(table) + (" (\n" + block));
  }

  lemma CreateReadsBack(table: string, columns: seq<Column>)
    requires Legible(Create(table, columns))
    ensures ReadBody(BodyText(Create(table, columns))) == Some(Shown(Create(table, columns)))
  {
    if columns == [] {
      BlockReadsBack(table, [""]);
      assert Join([""], ",\n") == Join(ColumnTexts(columns), ",\n") == "";
      assert ShownColumns(columns) == [];
    } else {
      var lines := ColumnTexts(columns);
      forall i | 0 <= i < |lines| ensures ColumnLine(lines[i]) { ColumnIsLine(columns[i]); }
      BlockReadsBack(table, lines);
      TableReadsBack(table, columns);
    }
  }

  function KeyLine(left: string, right: string): string {
    "  PRIMARY KEY (" + QuoteIdentifier(left) + ", " + QuoteIdentifier(right) + ")"
  }

  lemma KeyLineReadsBack(left: string, right: string)
    ensures ReadKeyLine(KeyLine(left, right)) == Some([left, right])
  {
    var names := [left, right];
    var inner := Join(QuoteAll(names), ", ") + (")" + "");
    assert QuoteAll(names)[1..] == [QuoteIdentifier(right)];
    assert Join(QuoteAll(names), ", ") == QuoteIdentifier(left) + ", " + QuoteIdentifier(right);
    assert KeyLine(left, right) == "  PRIMARY KEY (" + inner;
    ExpectReads("  PRIMARY KEY (", inner);
    NamesInParensReadBack(names, "");
  }

  lemma KeyLineIsLine(left: string, right: string)
    requires NoNewline(left) && NoNewline(right)
    ensures ColumnLine(KeyLine(left, right))
  {
    QuotedIsClean(left);
    QuotedIsClean(right);
  }

  lemma LinkTableReadsBack(table: string, l: Column, r: Column, left: string, right: string)
    requires LegibleColumn(l) && LegibleColumn(r)
    requires !l.nullable && !l.primaryKey && !r.nullable && !r.primaryKey
    ensures ReadTable(table, [ColumnText(l), ColumnText(r), KeyLine(left, right)]) ==
            Some(CreateLink(table, l.name, l.sqlType, r.name, r.sqlType, [left, right]))
  {
    ColumnReadsBack(l);
    ColumnReadsBack(r);
    KeyLineReadsBack(left, right);
  }

  lemma LinkLinesAre(lc: string, lt: string, rc: string, rt: string, linkKey: seq<string>)
    ensures LinkLines(lc, lt, rc, rt, linkKey) ==
            [ColumnText(Column(lc, lt, false, false)), ColumnText(Column(rc, rt, false, false)),
             KeyLine(if |linkKey| >= 2 then linkKey[0] else lc, if |linkKey| >= 2 then linkKey[1] else rc)]
  {
  }

  /** The lines of a link table, as two columns that may not be null and a key. */
  lemma LinkLinesOf(s: Statement) returns (l: Column, r: Column, left: string, right: string)
    requires s.CreateLink? && Legible(s)
    ensures l == Column(s.leftColumn, s.leftType, false, false) && r == Column(s.rightColumn, s.rightType, false, false)
    ensures LegibleColumn(l) && LegibleColumn(r)
    ensures LinkLines(s.leftColumn, s.leftType, s.rightColumn, s.rightType, s.linkKey) ==
            [ColumnText(l), ColumnText(r), KeyLine(left, right)]
    ensures ColumnLine(ColumnText(l)) && ColumnLine(ColumnText(r)) && ColumnLine(KeyLine(left, right))
    ensures Shown(s) == CreateLink(s.table, s.leftColumn, s.leftType, s.rightColumn, s.rightType, [left, right])
  {
    l, r := Column(s.leftColumn, s.leftType, false, false), Column(s.rightColumn, s.rightType, false, false);
    left := if |s.linkKey| >= 2 then s.linkKey[0] else s.leftColumn;
    right := if |s.linkKey| >= 2 then s.linkKey[1] else s.rightColumn;
    LinkLinesAre(s.leftColumn, s.leftType, s.rightColumn, s.rightType, s.linkKey);
    ColumnIsLine(l);
    ColumnIsLine(r);
    KeyLineIsLine(left, right);
    assert |s.linkKey| >= 2 ==> s.linkKey[..2] == [left, right];
  }

  lemma LinkBlockReadsBack(s: Statement, lines: seq<string>)
    requires s.CreateLink? && lines != [] && forall i :: 0 <= i < |lines| ==> ColumnLine(lines[i])
    requires lines == LinkLines(s.leftColumn, s.leftType, s.rightColumn, s.rightType, s.linkKey)
    ensures ReadBody(BodyText(s)) == ReadTable(s.table, lines)
  {
    BlockReadsBack(s.table, lines);
  }

  lemma LinkReadsBack(s: Statement)
    requires s.CreateLink? && Legible(s)
    ensures ReadBody(BodyText(s)) == Some(Shown(s))
  {
    var l, r, left, right := LinkLinesOf(s);
    LinkBlockReadsBack(s, [ColumnText(l), ColumnText(r), KeyLine(left, right)]);
    LinkTableReadsBack(s.table, l, r, left, right);
  }

  // ---- statements and whole texts ----

  /** The text of a statement says what the statement says. */
  lemma StatementReadsBack(s: Statement)
    requires Legible(s)
    ensures ReadBody(BodyText(s)) == Some(Shown(s))
  {
    match s
    case Create(table, columns) => CreateReadsBack(table, columns);
    case CreateLink(_, _, _, _, _, _) => LinkReadsBack(s);
    case Upsert(table, pk, row) => InsertReadsBack(table, pk, row);
    case DeleteExcept(table, keep) => DeleteReadsBack(table, keep);
  }

  /** A text that is split before it is run: the pieces, read one by one, are the statements. */
  lemma TextSaysItsStatements(stmts: seq<Statement>)
    requires stmts != [] && forall i :: 0 <= i < |stmts| ==> Clean(stmts[i]) && Legible(stmts[i])
    ensures |Split(SqlText(stmts))| == |stmts|
    ensures forall i :: 0 <= i < |stmts| ==> ReadStatement(Split(SqlText(stmts))[i]) == Some(Shown(stmts[i]))
  {
    TextSplitsIntoItsStatements(stmts);
    forall i | 0 <= i < |stmts| ensures ReadStatement(Split(SqlText(stmts))[i]) == Some(Shown(stmts[i])) {
      var body := BodyText(stmts[i]);
      assert Split(SqlText(stmts))[i] == body + ";" && (body + ";")[..|body|] == body;
      StatementReadsBack(stmts[i]);
    }
  }
}
