/** The text of a ClickHouse statement says what the statement says, and running what it says does
    what the statement does. */
module ClickHouseReadBack {
  import opened Common
  import opened Plans
  import opened Literals
  import opened StatementText
  import opened SqlReader
  import opened ClickHouse
  import opened ClickHouseText
  import opened ClickHouseReader

  // ---- what a statement says ----

  /** The key columns the row has, with their literals. */
  function KeyCells(row: LiteralRow, pk: seq<string>): seq<(string, string)> {
    if pk == [] then []
    else if Carries(row, pk[0]) then [(pk[0], Field(row, pk[0]))] + KeyCells(row, pk[1..])
    else KeyCells(row, pk[1..])
  }

  function Definitions(columns: seq<Column>): seq<(string, string)> {
    seq(|columns|, i requires 0 <= i < |columns| => (columns[i].name, ColumnType(columns[i])))
  }

  function Alternatives(rows: seq<LiteralRow>, pk: seq<string>): seq<seq<(string, string)>> {
    seq(|rows|, i requires 0 <= i < |rows| => KeyCells(rows[i], pk))
  }

  function Says(s: Statement): Sql {
    match s
    case Create(table, columns) => CreateSql(table, Definitions(columns), PrimaryKeyColumns(columns))
    case CreateLink(table, lc, lt, rc, rt, linkKey) =>
      CreateSql(table, [(lc, TranslateType(lt)), (rc, TranslateType(rt))], if linkKey != [] then linkKey else [lc, rc])
    case Insert(table, row) => InsertSql(table, row.columns, row.values)
    case DeleteWhere(table, pk, rows) => DeleteSql(table, Alternatives(rows, pk))
    case Truncate(table) => TruncateSql(table)
  }

  /** A name that can be told from what follows it, on its line. */
  predicate LegibleName(name: string) {
    Solid(STOPS, name) && NoNewline(name)
  }

  predicate LegibleNames(names: seq<string>) {
    forall i :: 0 <= i < |names| ==> LegibleName(names[i])
  }

  predicate Legible(s: Statement) {
    (s.Truncate? || LegibleName(s.table)) &&
    match s
    case Create(_, columns) => forall i :: 0 <= i < |columns| ==> LegibleName(columns[i].name)
    case CreateLink(_, lc, _, rc, _, linkKey) => LegibleName(lc) && LegibleName(rc) && LegibleNames(linkKey)
    case Insert(_, row) => AllSolid(STOPS, row.columns) && AllSolid(STOPS, row.values)
    case DeleteWhere(_, pk, rows) =>
      rows != [] && AllSolid(STOPS, pk) && forall i :: 0 <= i < |rows| ==> AllSolid(STOPS, rows[i].values)
    case Truncate(_) => true
  }

  lemma WordReadsBack(word: string, rest: string)
    requires Solid(STOPS, word) && (rest == "" || rest[0] in STOPS)
    ensures ReadWord(word + rest) == (word, rest)
  {
    ChunkReadsBack(STOPS, Outside, 0, word, rest);
  }

  // ---- inserts ----

  lemma InsertSteps(t: string, table: string, rest: string, inner: string, columns: seq<string>, more: string,
                    list: string, values: seq<string>)
    requires ReadWord(t) == (table, rest) && Expect(rest, " (") == Some(inner)
    requires ReadListInParens(STOPS, inner) == Some((columns, more)) && Expect(more, " VALUES (") == Some(list)
    requires ReadListInParens(STOPS, list) == Some((values, ""))
    ensures ReadInsert(t) == Some(InsertSql(table, columns, values))
  {
  }

  lemma InsertText(table: string, names: string, values: string)
    ensures "INSERT INTO " + table + " (" + names + ") VALUES (" + values + ")" ==
            "INSERT INTO " + (table + (" (" + (names + (")" + (" VALUES (" + (values + (")" + "")))))))
  {
    var list := values + (")" + "");
    assert ") VALUES (" + list == ")" + (" VALUES (" + list);
    assert list == values + ")";
  }

  lemma BodyIsInsert(t: string)
    ensures ReadBody("INSERT INTO " + t) == ReadInsert(t)
  {
    var text := "INSERT INTO " + t;
    assert text[0] == 'I' && text[12..] == t;
  }

  lemma InsertReadsBack(table: string, row: LiteralRow)
    requires Legible(Insert(table, row))
    ensures ReadBody(BodyText(Insert(table, row))) == Some(InsertSql(table, row.columns, row.values))
  {
    var list := Join(row.values, ", ") + (")" + "");
    var inner := Join(row.columns, ", ") + (")" + (" VALUES (" + list));
    InsertText(table, Join(row.columns, ", "), Join(row.values, ", "));
    WordReadsBack(table, " (" + inner);
    ExpectReads(" (", inner);
    ParensReadBack(STOPS, row.columns, " VALUES (" + list);
    ExpectReads(" VALUES (", list);
    ParensReadBack(STOPS, row.values, "");
    InsertSteps(table + (" (" + inner), table, " (" + inner, inner, row.columns, " VALUES (" + list, list, row.values);
    BodyIsInsert(table + (" (" + inner));
  }

  // ---- deletes ----

  function EqualOf(cell: (string, string)): string {
    cell.0 + " = " + cell.1
  }

  function EqualsOf(cells: seq<(string, string)>): seq<string> {
    seq(|cells|, i requires 0 <= i < |cells| => EqualOf(cells[i]))
  }

  predicate SolidCells(cells: seq<(string, string)>) {
    forall i :: 0 <= i < |cells| ==> Solid(STOPS, cells[i].0) && Solid(STOPS, cells[i].1)
  }

  lemma {:induction false} KeyCellsMore(row: LiteralRow, pk: seq<string>, c: string)
    ensures KeyCells(row, pk + [c]) == KeyCells(row, pk) + (if Carries(row, c) then [(c, Field(row, c))] else [])
    decreases |pk|
  {
    if pk == [] {
      assert pk + [c] == [c] && [c][1..] == [];
    } else {
      assert (pk + [c])[0] == pk[0] && (pk + [c])[1..] == pk[1..] + [c];
      KeyCellsMore(row, pk[1..], c);
    }
  }

  lemma {:induction false} EqualsAre(row: LiteralRow, pk: seq<string>)
    ensures EqualTexts(row, pk) == EqualsOf(KeyCells(row, pk))
    decreases |pk|
  {
    if pk != [] {
      var front, c := pk[..|pk| - 1], pk[|pk| - 1];
      EqualsAre(row, front);
      KeyCellsMore(row, front, c);
      assert pk == front + [c];
    }
  }

  lemma {:induction false} KeyCellsAreSolid(row: LiteralRow, pk: seq<string>)
    requires AllSolid(STOPS, pk) && AllSolid(STOPS, row.values)
    ensures SolidCells(KeyCells(row, pk))
    decreases |pk|
  {
    if pk != [] {
      KeyCellsAreSolid(row, pk[1..]);
      assert Solid(STOPS, pk[0]);
    }
  }

  lemma EqualStarts(cell: (string, string), rest: string)
    requires Solid(STOPS, cell.0) && Solid(STOPS, cell.1) && (rest == "" || rest[0] in STOPS)
    ensures ReadWord(EqualOf(cell) + rest) == (cell.0, " = " + (cell.1 + rest))
    ensures Expect(" = " + (cell.1 + rest), " = ") == Some(cell.1 + rest)
    ensures ReadWord(cell.1 + rest) == (cell.1, rest)
  {
    assert EqualOf(cell) + rest == cell.0 + (" = " + (cell.1 + rest));
    WordReadsBack(cell.0, " = " + (cell.1 + rest));
    ExpectReads(" = ", cell.1 + rest);
    WordReadsBack(cell.1, rest);
  }

  lemma LastEqual(cell: (string, string), rest: string)
    requires Solid(STOPS, cell.0) && Solid(STOPS, cell.1)
    ensures ReadEquals(EqualOf(cell) + (")" + rest)) == Some(([cell], ")" + rest))
  {
    EqualStarts(cell, ")" + rest);
    assert (")" + rest)[0] == ')';
  }

  lemma EqualThenMore(cell: (string, string), more: string, cells: seq<(string, string)>, end: string)
    requires Solid(STOPS, cell.0) && Solid(STOPS, cell.1) && ReadEquals(more) == Some((cells, end))
    ensures ReadEquals(EqualOf(cell) + (" AND " + more)) == Some(([cell] + cells, end))
  {
    EqualStarts(cell, " AND " + more);
    ExpectReads(" AND ", more);
  }

  lemma EqualsMore(cells: seq<(string, string)>, rest: string)
    requires cells != []
    ensures var text := Join(EqualsOf(cells), " AND ") + rest;
            text == if |cells| == 1 then EqualOf(cells[0]) + rest
                    else EqualOf(cells[0]) + (" AND " + (Join(EqualsOf(cells[1..]), " AND ") + rest))
    ensures cells == [cells[0]] + cells[1..] && (|cells| == 1 ==> cells == [cells[0]])
  {
    var texts := EqualsOf(cells);
    assert texts[1..] == EqualsOf(cells[1..]);
    if |cells| > 1 {
      JoinMore(texts, " AND ", rest);
    }
  }

  lemma {:induction false} EqualsReadBack(cells: seq<(string, string)>, rest: string)
    requires cells != [] && SolidCells(cells)
    ensures ReadEquals(Join(EqualsOf(cells), " AND ") + (")" + rest)) == Some((cells, ")" + rest))
    decreases |cells|
  {
    EqualsMore(cells, ")" + rest);
    if |cells| == 1 {
      LastEqual(cells[0], rest);
    } else {
      EqualsReadBack(cells[1..], rest);
      EqualThenMore(cells[0], Join(EqualsOf(cells[1..]), " AND ") + (")" + rest), cells[1..], ")" + rest);
    }
  }

  function AlternativeOf(cells: seq<(string, string)>): string {
    if cells == [] then "1 = 0" else "(" + Join(EqualsOf(cells), " AND ") + ")"
  }

  lemma AlternativeSteps(t: string, inner: string, cells: seq<(string, string)>, rest: string)
    requires Expect(t, "1 = 0") == None && Expect(t, "(") == Some(inner)
    requires ReadEquals(inner) == Some((cells, ")" + rest))
    ensures ReadAlternative(t) == Some((cells, rest))
  {
    ExpectReads(")", rest);
  }

  lemma AlternativeReadsBack(cells: seq<(string, string)>, rest: string)
    requires SolidCells(cells)
    ensures ReadAlternative(AlternativeOf(cells) + rest) == Some((cells, rest))
  {
    if cells == [] {
      ExpectReads("1 = 0", rest);
    } else {
      var inner := Join(EqualsOf(cells), " AND ") + (")" + rest);
      var t := "(" + inner;
      assert AlternativeOf(cells) + rest == t;
      assert t[0] == '(' && "1 = 0"[0] == '1';
      ExpectReads("(", inner);
      EqualsReadBack(cells, rest);
      AlternativeSteps(t, inner, cells, rest);
    }
  }

  function AlternativeTexts(alternatives: seq<seq<(string, string)>>): seq<string> {
    seq(|alternatives|, i requires 0 <= i < |alternatives| => AlternativeOf(alternatives[i]))
  }

  lemma LastAlternative(cells: seq<(string, string)>)
    requires SolidCells(cells)
    ensures ReadAlternatives(AlternativeOf(cells)) == Some([cells])
  {
    AlternativeReadsBack(cells, "");
    assert AlternativeOf(cells) + "" == AlternativeOf(cells);
  }

  lemma AlternativeThenMore(cells: seq<(string, string)>, more: string, others: seq<seq<(string, string)>>)
    requires SolidCells(cells) && ReadAlternatives(more) == Some(others)
    ensures ReadAlternatives(AlternativeOf(cells) + (" OR " + more)) == Some([cells] + others)
  {
    AlternativeReadsBack(cells, " OR " + more);
    ExpectReads(" OR ", more);
  }

  lemma AlternativesMore(alternatives: seq<seq<(string, string)>>)
    requires alternatives != []
    ensures var text := Join(AlternativeTexts(alternatives), " OR ");
            text == if |alternatives| == 1 then AlternativeOf(alternatives[0])
                    else AlternativeOf(alternatives[0]) + (" OR " + Join(AlternativeTexts(alternatives[1..]), " OR "))
    ensures alternatives == [alternatives[0]] + alternatives[1..]
    ensures |alternatives| == 1 ==> alternatives == [alternatives[0]]
  {
    var texts := AlternativeTexts(alternatives);
    assert texts[1..] == AlternativeTexts(alternatives[1..]);
  }

  lemma {:induction false} AlternativesReadBack(alternatives: seq<seq<(string, string)>>)
    requires alternatives != [] && forall i :: 0 <= i < |alternatives| ==> SolidCells(alternatives[i])
    ensures ReadAlternatives(Join(AlternativeTexts(alternatives), " OR ")) == Some(alternatives)
    decreases |alternatives|
  {
    AlternativesMore(alternatives);
    if |alternatives| == 1 {
      LastAlternative(alternatives[0]);
    } else {
      AlternativesReadBack(alternatives[1..]);
      AlternativeThenMore(alternatives[0], Join(AlternativeTexts(alternatives[1..]), " OR "), alternatives[1..]);
    }
  }

  lemma ConditionsAre(rows: seq<LiteralRow>, pk: seq<string>)
    ensures ConditionTexts(rows, pk) == AlternativeTexts(Alternatives(rows, pk))
  {
    forall i | 0 <= i < |rows| ensures ConditionText(rows[i], pk) == AlternativeOf(KeyCells(rows[i], pk)) {
      EqualsAre(rows[i], pk);
      assert |EqualTexts(rows[i], pk)| == |KeyCells(rows[i], pk)|;
    }
  }

  lemma DeleteSteps(t: string, table: string, rest: string, condition: string,
                    alternatives: seq<seq<(string, string)>>)
    requires ReadWord(t) == (table, rest) && Expect(rest, " DELETE WHERE ") == Some(condition)
    requires ReadAlternatives(condition) == Some(alternatives)
    ensures ReadDelete(t) == Some(DeleteSql(table, alternatives))
  {
  }

  lemma BodyIsDelete(t: string)
    ensures ReadBody("ALTER TABLE " + t) == ReadDelete(t)
  {
    var text := "ALTER TABLE " + t;
    assert text[0] == 'A' && text[12..] == t;
  }

  lemma DeleteReadsBack(table: string, pk: seq<string>, rows: seq<LiteralRow>)
    requires Legible(DeleteWhere(table, pk, rows))
    ensures ReadBody(BodyText(DeleteWhere(table, pk, rows))) == Some(DeleteSql(table, Alternatives(rows, pk)))
  {
    var alternatives := Alternatives(rows, pk);
    var condition := Join(AlternativeTexts(alternatives), " OR ");
    ConditionsAre(rows, pk);
    forall i | 0 <= i < |rows| ensures SolidCells(alternatives[i]) { KeyCellsAreSolid(rows[i], pk); }
    var rest := " DELETE WHERE " + condition;
    assert BodyText(DeleteWhere(table, pk, rows)) == "ALTER TABLE " + (table + rest);
    WordReadsBack(table, rest);
    ExpectReads(" DELETE WHERE ", condition);
    AlternativesReadBack(alternatives);
    DeleteSteps(table + rest, table, rest, condition, alternatives);
    BodyIsDelete(table + rest);
  }

  // ---- creates ----

  predicate LineType(t: string) {
    NoNewline(t) && t != "" && t[|t| - 1] != ','
  }

  lemma TranslatedIsLineType(sqlType: string)
    ensures LineType(TranslateType(sqlType))
  {
    TranslatedIsTypeText(sqlType);
  }

  lemma NullableIsLineType(base: string)
    requires NoNewline(base)
    ensures LineType("Nullable(" + base + ")")
  {
  }

  lemma ColumnTypeIsLineType(c: Column)
    ensures LineType(ColumnType(c))
  {
    TranslatedIsLineType(c.sqlType);
    NullableIsLineType(TranslateType(c.sqlType));
  }

  function LineOf(definition: (string, string)): string {
    "  " + definition.0 + " " + definition.1
  }

  function LinesOf(definitions: seq<(string, string)>): seq<string> {
    seq(|definitions|, i requires 0 <= i < |definitions| => LineOf(definitions[i]))
  }

  predicate LegibleDefinition(definition: (string, string)) {
    LegibleName(definition.0) && LineType(definition.1)
  }

  lemma LineReadsAsColumn(definition: (string, string))
    requires LegibleDefinition(definition)
    ensures ReadColumn(LineOf(definition)) == Some(definition)
    ensures ColumnLine(LineOf(definition)) && LineOf(definition) != ""
  {
    var named := definition.0 + (" " + definition.1);
    assert LineOf(definition) == "  " + named;
    ExpectReads("  ", named);
    WordReadsBack(definition.0, " " + definition.1);
    ExpectReads(" ", definition.1);
    assert LineOf(definition)[|LineOf(definition)| - 1] == definition.1[|definition.1| - 1];
  }

  lemma {:induction false} DefinitionsReadBack(definitions: seq<(string, string)>)
    requires forall i :: 0 <= i < |definitions| ==> LegibleDefinition(definitions[i])
    ensures ReadColumns(LinesOf(definitions)) == Some(definitions)
    decreases |definitions|
  {
    if definitions != [] {
      LineReadsAsColumn(definitions[0]);
      assert LinesOf(definitions)[1..] == LinesOf(definitions[1..]);
      DefinitionsReadBack(definitions[1..]);
      assert definitions == [definitions[0]] + definitions[1..];
    }
  }

  lemma EngineReadsBack(key: seq<string>)
    requires AllSolid(STOPS, key)
    ensures ReadEngine(Engine(key)) == Some(key)
  {
    ExpectReads("\nENGINE = MergeTree()\nORDER BY ", OrderBy(key));
    if key != [] {
      var inner := Join(key, ", ") + (")" + "");
      assert OrderBy(key) == "(" + inner;
      assert OrderBy(key)[0] == '(' && "tuple()"[0] == 't';
      ExpectReads("(", inner);
      ParensReadBack(STOPS, key, "");
    }
  }

  lemma CreateSteps(t: string, table: string, rest: string, block: string, lines: seq<string>, engine: string)
    requires ReadWord(t) == (table, rest) && Expect(rest, " (\n") == Some(block)
    requires ReadLines(block) == Some((lines, engine))
    ensures forall definitions, key ::
              ReadEngine(engine) == Some(key) &&
              (if lines == [""] then definitions == [] else ReadColumns(lines) == Some(definitions)) ==>
                ReadCreate(t) == Some(CreateSql(table, definitions, key))
  {
  }

  lemma BodyIsCreate(t: string)
    ensures ReadBody("CREATE TABLE IF NOT EXISTS " + t) == ReadCreate(t)
  {
    var text := "CREATE TABLE IF NOT EXISTS " + t;
    assert text[27..] == t;
  }

  lemma CreateText(table: string, lines: string, engine: string)
    ensures CreateHead(table) + "\n" + lines + "\n)" + engine ==
            "CREATE TABLE IF NOT EXISTS " + (table + (" (\n" + (lines + ("\n)" + engine))))
  {
    var block := lines + ("\n)" + engine);
    assert " (" + ("\n" + block) == " (\n" + block;
  }

  lemma BlockReadsBack(table: string, definitions: seq<(string, string)>, key: seq<string>)
    requires Solid(STOPS, table) && AllSolid(STOPS, key)
    requires forall i :: 0 <= i < |definitions| ==> LegibleDefinition(definitions[i])
    ensures ReadBody(CreateHead(table) + "\n" + Join(LinesOf(definitions), ",\n") + "\n)" + Engine(key)) ==
            Some(CreateSql(table, definitions, key))
  {
    var lines := if definitions == [] then [""] else LinesOf(definitions);
    var block := Join(lines, ",\n") + ("\n)" + Engine(key));
    assert Join(lines, ",\n") == Join(LinesOf(definitions), ",\n");
    CreateText(table, Join(lines, ",\n"), Engine(key));
    WordReadsBack(table, " (\n" + block);
    ExpectReads(" (\n", block);
    forall i | 0 <= i < |definitions| ensures ColumnLine(LinesOf(definitions)[i]) && LinesOf(definitions)[i] != "" {
      LineReadsAsColumn(definitions[i]);
    }
    LinesReadBack(lines, Engine(key));
    DefinitionsReadBack(definitions);
    EngineReadsBack(key);
    CreateSteps(table + (" (\n" + block), table, " (\n" + block, block, lines, Engine(key));
    BodyIsCreate(table + (" (\n" + block));
  }

  lemma {:induction false} KeyColumnsAreLegible(columns: seq<Column>)
    requires forall i :: 0 <= i < |columns| ==> LegibleName(columns[i].name)
    ensures AllSolid(STOPS, PrimaryKeyColumns(columns))
    decreases |columns|
  {
    if columns != [] {
      KeyColumnsAreLegible(columns[..|columns| - 1]);
    }
  }

  lemma CreateReadsBack(table: string, columns: seq<Column>)
    requires Legible(Create(table, columns))
    ensures ReadBody(BodyText(Create(table, columns))) == Some(Says(Create(table, columns)))
  {
    forall i | 0 <= i < |columns| ensures LegibleDefinition(Definitions(columns)[i]) {
      ColumnTypeIsLineType(columns[i]);
    }
    KeyColumnsAreLegible(columns);
    assert ColumnTexts(columns) == LinesOf(Definitions(columns));
    BlockReadsBack(table, Definitions(columns), PrimaryKeyColumns(columns));
  }

  function LinkDefinitions(s: Statement): seq<(string, string)>
    requires s.CreateLink?
  {
    [(s.leftColumn, TranslateType(s.leftType)), (s.rightColumn, TranslateType(s.rightType))]
  }

  function LinkSorting(s: Statement): seq<string>
    requires s.CreateLink?
  {
    if s.linkKey != [] then s.linkKey else [s.leftColumn, s.rightColumn]
  }

  lemma LinkIsLegible(s: Statement)
    requires s.CreateLink? && Legible(s)
    ensures forall i :: 0 <= i < |LinkDefinitions(s)| ==> LegibleDefinition(LinkDefinitions(s)[i])
    ensures AllSolid(STOPS, LinkSorting(s))
  {
    TranslatedIsLineType(s.leftType);
    TranslatedIsLineType(s.rightType);
  }

  lemma LinkText(s: Statement)
    requires s.CreateLink?
    ensures BodyText(s) ==
            CreateHead(s.table) + "\n" + Join(LinesOf(LinkDefinitions(s)), ",\n") + "\n)" + Engine(LinkSorting(s))
  {
    assert LinesOf(LinkDefinitions(s)) == ["  " + s.leftColumn + " " + TranslateType(s.leftType),
                                           "  " + s.rightColumn + " " + TranslateType(s.rightType)];
  }

  lemma LinkReadsBack(s: Statement)
    requires s.CreateLink? && Legible(s)
    ensures ReadBody(BodyText(s)) == Some(Says(s))
  {
    LinkIsLegible(s);
    LinkText(s);
    BlockReadsBack(s.table, LinkDefinitions(s), LinkSorting(s));
  }

  // ---- statements and whole texts ----

  lemma BodyIsTruncate(table: string)
    ensures ReadBody("TRUNCATE TABLE " + table) == Some(TruncateSql(table))
  {
    var text := "TRUNCATE TABLE " + table;
    assert text[0] == 'T' && text[15..] == table;
  }

  /** The text of a statement says what the statement says. */
  lemma StatementReadsBack(s: Statement)
    requires Legible(s)
    ensures ReadBody(BodyText(s)) == Some(Says(s))
  {
    match s
    case Create(table, columns) => CreateReadsBack(table, columns);
    case CreateLink(_, _, _, _, _, _) => LinkReadsBack(s);
    case Insert(table, row) => InsertReadsBack(table, row);
    case DeleteWhere(table, pk, rows) => DeleteReadsBack(table, pk, rows);
    case Truncate(table) => BodyIsTruncate(table);
  }

  /** A comparison with a literal; NULL is equal to nothing. */
  predicate Holds(stored: Row, cell: (string, string)) {
    cell.0 in stored && stored[cell.0] == cell.1 != NULL
  }

  /** All of the comparisons hold of a stored row. */
  predicate Meets(stored: Row, cells: seq<(string, string)>) {
    cells != [] &&
    forall i :: 0 <= i < |cells| ==> Holds(stored, cells[i])
  }

  predicate MeetsOne(stored: Row, alternatives: seq<seq<(string, string)>>) {
    exists i :: 0 <= i < |alternatives| && Meets(stored, alternatives[i])
  }

  function Spared(t: Table, alternatives: seq<seq<(string, string)>>): Table {
    if t == [] then []
    else if MeetsOne(t[0], alternatives) then Spared(t[1..], alternatives)
    else [t[0]] + Spared(t[1..], alternatives)
  }

  /** What a text does to a table. */
  function Run(t: Table, q: Sql): Table {
    match q
    case CreateSql(_, _, _) => t
    case InsertSql(_, columns, values) => t + [Cells(InsertRow(columns, values))]
    case DeleteSql(_, alternatives) => Spared(t, alternatives)
    case TruncateSql(_) => []
  }

  predicate KeyHolds(stored: Row, row: LiteralRow, pk: seq<string>) {
    forall i :: 0 <= i < |pk| && Carries(row, pk[i]) ==> Equals(At(stored, pk[i]), Field(row, pk[i]))
  }

  lemma FirstKeyHolds(stored: Row, row: LiteralRow, pk: seq<string>)
    requires pk != []
    ensures KeyHolds(stored, row, pk) <==>
              (Carries(row, pk[0]) ==> Holds(stored, (pk[0], Field(row, pk[0])))) && KeyHolds(stored, row, pk[1..])
    ensures (exists i :: 0 <= i < |pk| && Carries(row, pk[i])) <==>
              Carries(row, pk[0]) || exists i :: 0 <= i < |pk[1..]| && Carries(row, pk[1..][i])
  {
    assert forall i :: 0 <= i < |pk[1..]| ==> pk[1..][i] == pk[i + 1];
    assert forall i :: 0 < i < |pk| ==> pk[i] == pk[1..][i - 1];
  }

  lemma FirstCellHolds(stored: Row, cell: (string, string), rest: seq<(string, string)>)
    ensures Meets(stored, [cell] + rest) <==> Holds(stored, cell) && (rest == [] || Meets(stored, rest))
  {
    var cells := [cell] + rest;
    if Meets(stored, cells) {
      assert Holds(stored, cells[0]);
      forall i | 0 <= i < |rest| ensures Holds(stored, rest[i]) { assert Holds(stored, cells[i + 1]); }
    } else if Holds(stored, cell) && rest != [] {
      var i :| 0 <= i < |cells| && !Holds(stored, cells[i]);
      assert cells[i] == rest[i - 1];
    }
  }

  lemma {:induction false} KeyCellsHold(row: LiteralRow, pk: seq<string>, stored: Row)
    ensures KeyCells(row, pk) != [] <==> exists i :: 0 <= i < |pk| && Carries(row, pk[i])
    ensures KeyCells(row, pk) == [] || Meets(stored, KeyCells(row, pk)) <==> KeyHolds(stored, row, pk)
    decreases |pk|
  {
    if pk != [] {
      KeyCellsHold(row, pk[1..], stored);
      FirstKeyHolds(stored, row, pk);
      if Carries(row, pk[0]) {
        FirstCellHolds(stored, (pk[0], Field(row, pk[0])), KeyCells(row, pk[1..]));
      }
    }
  }

  lemma MatchMeets(stored: Row, row: LiteralRow, pk: seq<string>)
    ensures Matches(stored, row, pk) <==> Meets(stored, KeyCells(row, pk))
  {
    KeyCellsHold(row, pk, stored);
  }

  lemma HitMeets(stored: Row, rows: seq<LiteralRow>, pk: seq<string>)
    ensures Hit(stored, rows, pk) <==> MeetsOne(stored, Alternatives(rows, pk))
  {
    forall i | 0 <= i < |rows| ensures Matches(stored, rows[i], pk) <==> Meets(stored, Alternatives(rows, pk)[i]) {
      MatchMeets(stored, rows[i], pk);
    }
  }

  lemma {:induction false} SparedMore(t: Table, row: Row, alternatives: seq<seq<(string, string)>>)
    ensures Spared(t + [row], alternatives) ==
            Spared(t, alternatives) + (if MeetsOne(row, alternatives) then [] else [row])
    decreases |t|
  {
    if t == [] {
      assert t + [row] == [row] && [row][1..] == [];
    } else {
      assert (t + [row])[0] == t[0] && (t + [row])[1..] == t[1..] + [row];
      SparedMore(t[1..], row, alternatives);
    }
  }

  lemma {:induction false} WithoutIsSpared(t: Table, pk: seq<string>, rows: seq<LiteralRow>)
    ensures Without(t, pk, rows) == Spared(t, Alternatives(rows, pk))
    decreases |t|
  {
    if t != [] {
      var front, last := t[..|t| - 1], t[|t| - 1];
      WithoutIsSpared(front, pk, rows);
      HitMeets(last, rows, pk);
      SparedMore(front, last, Alternatives(rows, pk));
      assert t == front + [last];
    }
  }

  /** Running what the text says does what the statement does. */
  lemma TextDoesWhatTheStatementDoes(t: Table, s: Statement)
    requires Legible(s)
    ensures ReadBody(BodyText(s)).Some? && Run(t, ReadBody(BodyText(s)).value) == Exec(t, s)
  {
    StatementReadsBack(s);
    if s.DeleteWhere? {
      WithoutIsSpared(t, s.pk, s.rows);
    }
  }

  /** A text that is split before it is run: the pieces, read one by one, are the statements, when no
      truncate but the last statement names a table that ends in white space or a semicolon. */
  lemma TextSaysItsStatements(stmts: seq<Statement>)
    requires stmts != [] && forall i :: 0 <= i < |stmts| ==> Clean(stmts[i]) && Legible(stmts[i])
    requires forall i :: 0 <= i < |stmts| - 1 ==> (stmts[i].Truncate? ==> SteadyName(stmts[i].table))
    ensures |Split(SqlText(stmts))| == |stmts|
    ensures forall i :: 0 <= i < |stmts| ==> ReadStatement(Split(SqlText(stmts))[i]) == Some(Says(stmts[i]))
  {
    TextSplitsExactlyWhenSteady(stmts);
    forall i | 0 <= i < |stmts| ensures ReadStatement(Split(SqlText(stmts))[i]) == Some(Says(stmts[i])) {
      var body := BodyText(stmts[i]);
      assert Split(SqlText(stmts))[i] == body + ";" && (body + ";")[..|body|] == body;
      StatementReadsBack(stmts[i]);
    }
  }
}
