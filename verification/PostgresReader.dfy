/** Reading Postgres statements back from their text. The reader knows SQL, not how the adapter
    prints it. */
module PostgresReader {
  import opened Common
  import opened Plans
  import opened Literals
  import opened StatementText
  import opened SqlReader
  import opened Postgres
  import opened PostgresText

  /** What ends a literal: a comma, a closing parenthesis, or the quote that opens a name. */
  const STOPS := ",)\""

  // ---- names ----

  /** The rest of a quoted name after its opening quote. A doubled quote is a quote; quoted parts
      joined by a dot are one dotted name. */
  function ReadQuotedName(t: string): (r: Option<(string, string)>)
    ensures r.Some? ==> |r.value.1| < |t|
    decreases |t|
  {
    if t == "" then None
    else if t[0] != '"' then Prepend(t[0], ReadQuotedName(t[1..]))
    else if |t| >= 2 && t[1] == '"' then Prepend('"', ReadQuotedName(t[2..]))
    else if |t| >= 3 && t[1] == '.' && t[2] == '"' then Prepend('.', ReadQuotedName(t[3..]))
    else Some(("", t[1..]))
  }

  function ReadName(t: string): (r: Option<(string, string)>)
    ensures r.Some? ==> |r.value.1| < |t|
  {
    match Expect(t, "\"")
    case None => None
    case Some(rest) => ReadQuotedName(rest)
  }

  /** No text that would go on with the name before it. */
  predicate EndsName(rest: string) {
    rest == "" || (rest[0] != '"' && rest[0] != '.')
  }

  /** One character of a name inside its quotes. */
  function NameChar(c: char): string {
    if c == '.' then "\".\"" else if c == '"' then "\"\"" else [c]
  }

  lemma ReadsNameChar(c: char, tail: string)
    ensures ReadQuotedName(NameChar(c) + tail) == Prepend(c, ReadQuotedName(tail))
  {
    if c == '.' {
      assert ("\".\"" + tail)[3..] == tail;
    } else if c == '"' {
      assert ("\"\"" + tail)[2..] == tail;
    } else {
      assert ([c] + tail)[1..] == tail;
    }
  }

  lemma EscapedFirst(name: string)
    requires name != ""
    ensures EscapeIdentifier(name) == NameChar(name[0]) + EscapeIdentifier(name[1..])
  {
  }

  lemma NameEnds(rest: string)
    requires EndsName(rest)
    ensures ReadQuotedName("\"" + rest) == Some(("", rest))
  {
    var end := "\"" + rest;
    assert end[1..] == rest;
  }

  lemma {:induction false} QuotedNameReadsBack(name: string, rest: string)
    requires EndsName(rest)
    ensures ReadQuotedName(EscapeIdentifier(name) + ("\"" + rest)) == Some((name, rest))
    decreases |name|
  {
    var end := "\"" + rest;
    if name == "" {
      NameEnds(rest);
      assert EscapeIdentifier(name) + end == end;
    } else {
      QuotedNameReadsBack(name[1..], rest);
      EscapedFirst(name);
      Regroup(NameChar(name[0]), EscapeIdentifier(name[1..]), end);
      ReadsNameChar(name[0], EscapeIdentifier(name[1..]) + end);
      assert name == [name[0]] + name[1..];
    }
  }

  lemma NameReadsBack(name: string, rest: string)
    requires EndsName(rest)
    ensures ReadName(QuoteIdentifier(name) + rest) == Some((name, rest))
  {
    var inner := EscapeIdentifier(name) + ("\"" + rest);
    assert QuoteIdentifier(name) + rest == "\"" + inner;
    ExpectReads("\"", inner);
    QuotedNameReadsBack(name, rest);
  }

  /** Names separated by commas. */
  function ReadNames(t: string): Option<(seq<string>, string)>
    decreases |t|
  {
    match ReadName(t)
    case None => None
    case Some((name, rest)) =>
      match Expect(rest, ", ")
      case None => Some(([name], rest))
      case Some(more) =>
        match ReadNames(more)
        case None => None
        case Some((names, end)) => Some(([name] + names, end))
  }

  lemma {:induction false} NamesReadBack(names: seq<string>, rest: string)
    requires names != [] && EndsName(rest) && !(", " <= rest)
    ensures ReadNames(Join(QuoteAll(names), ", ") + rest) == Some((names, rest))
    decreases |names|
  {
    var quoted := QuoteAll(names);
    if |names| == 1 {
      NameReadsBack(names[0], rest);
      assert names == [names[0]];
    } else {
      assert quoted[1..] == QuoteAll(names[1..]);
      var more := Join(quoted[1..], ", ") + rest;
      JoinMore(quoted, ", ", rest);
      NameReadsBack(names[0], ", " + more);
      ExpectReads(", ", more);
      NamesReadBack(names[1..], rest);
      assert names == [names[0]] + names[1..];
    }
  }

  /** Names between parentheses, possibly none; the opening one has been read. */
  function ReadNamesInParens(t: string): Option<(seq<string>, string)> {
    match Expect(t, ")")
    case Some(rest) => Some(([], rest))
    case None =>
      match ReadNames(t)
      case None => None
      case Some((names, end)) =>
        match Expect(end, ")")
        case None => None
        case Some(rest) => Some((names, rest))
  }

  lemma NamesInParensReadBack(names: seq<string>, rest: string)
    ensures ReadNamesInParens(Join(QuoteAll(names), ", ") + (")" + rest)) == Some((names, rest))
  {
    var t := Join(QuoteAll(names), ", ") + (")" + rest);
    ExpectReads(")", rest);
    if names == [] {
      assert t == ")" + rest;
    } else {
      NamesReadBack(names, ")" + rest);
      assert Join(QuoteAll(names), ", ")[0] == QuoteIdentifier(names[0])[0];
      assert t[0] == '"';
    }
  }

  // ---- upserts ----

  /** `"c" = EXCLUDED."c"`, repeated, to the end of the text. */
  function ReadUpdates(t: string): Option<seq<string>>
    decreases |t|
  {
    match ReadName(t)
    case None => None
    case Some((column, rest)) =>
      match Expect(rest, " = EXCLUDED.")
      case None => None
      case Some(source) =>
        match ReadName(source)
        case None => None
        case Some((from, end)) =>
          if from != column then None
          else if end == "" then Some([column])
          else
            match Expect(end, ", ")
            case None => None
            case Some(more) =>
              match ReadUpdates(more)
              case None => None
              case Some(columns) => Some([column] + columns)
  }

  function WithoutKey(columns: seq<string>, pk: seq<string>): seq<string> {
    if columns == [] then []
    else if columns[0] in pk then WithoutKey(columns[1..], pk)
    else [columns[0]] + WithoutKey(columns[1..], pk)
  }

  /** The conflict target, if the columns that are updated are all those outside it. */
  function ReadConflict(columns: seq<string>, t: string): Option<seq<string>> {
    if t == "" then Some([])
    else
      match Expect(t, " ON CONFLICT (")
      case None => None
      case Some(inner) =>
        match ReadNamesInParens(inner)
        case None => None
        case Some((pk, action)) =>
          if pk == [] then None
          else if action == " DO NOTHING" then if WithoutKey(columns, pk) == [] then Some(pk) else None
          else
            match Expect(action, " DO UPDATE SET ")
            case None => None
            case Some(sets) => if ReadUpdates(sets) == Some(WithoutKey(columns, pk)) then Some(pk) else None
  }

  function ReadInsert(t: string): Option<Statement> {
    match ReadName(t)
    case None => None
    case Some((table, rest)) =>
      match Expect(rest, " (")
      case None => None
      case Some(inner) =>
        match ReadNamesInParens(inner)
        case None => None
        case Some((columns, more)) =>
          match Expect(more, " VALUES (")
          case None => None
          case Some(list) =>
            match ReadListInParens(STOPS, list)
            case None => None
            case Some((values, conflict)) =>
              match ReadConflict(columns, conflict)
              case None => None
              case Some(pk) => Some(Upsert(table, pk, InsertRow(columns, values)))
  }

  // ---- deletes ----

  predicate EndsWith(t: string, suffix: string) {
    |t| >= |suffix| && t[|t| - |suffix|..] == suffix
  }

  function ConsCell(column: string, literal: string, row: LiteralRow): LiteralRow {
    InsertRow([column] + row.columns, [literal] + row.values)
  }

  /** `"c" = literal`, joined by AND. A literal before an AND is followed by the quote of a name. */
  function ReadEquals(t: string): (r: Option<(LiteralRow, string)>)
    ensures r.Some? ==> |r.value.1| <= |t|
    decreases |t|
  {
    match ReadName(t)
    case None => None
    case Some((column, rest)) =>
      match Expect(rest, " = ")
      case None => None
      case Some(list) =>
        var (chunk, more) := ReadChunk(STOPS, Outside, 0, list);
        if more == "" || more[0] != '"' then Some((InsertRow([column], [chunk]), more))
        else if !EndsWith(chunk, " AND ") then None
        else
          match ReadEquals(more)
          case None => None
          case Some((row, end)) => Some((ConsCell(column, chunk[..|chunk| - 5], row), end))
  }

  /** One clause, in parentheses. */
  function ReadClause(t: string): (r: Option<(LiteralRow, string)>)
    ensures r.Some? ==> |r.value.1| < |t|
  {
    match Expect(t, "(")
    case None => None
    case Some(inner) =>
      match Expect(inner, ")")
      case Some(rest) => Some((InsertRow([], []), rest))
      case None =>
        match ReadEquals(inner)
        case None => None
        case Some((row, end)) =>
          match Expect(end, ")")
          case None => None
          case Some(rest) => Some((row, rest))
  }

  /** Clauses joined by OR, then the closing parenthesis that ends the text. */
  function ReadClauses(t: string): Option<seq<LiteralRow>>
    decreases |t|
  {
    match ReadClause(t)
    case None => None
    case Some((row, rest)) =>
      if rest == ")" then Some([row])
      else
        match Expect(rest, " OR ")
        case None => None
        case Some(more) =>
          match ReadClauses(more)
          case None => None
          case Some(rows) => Some([row] + rows)
  }

  function ReadDelete(t: string): Option<Statement> {
    match ReadName(t)
    case None => None
    case Some((table, rest)) =>
      if rest == "" then Some(DeleteExcept(table, []))
      else
        match Expect(rest, " WHERE NOT (")
        case None => None
        case Some(inner) =>
          match ReadClauses(inner)
          case None => None
          case Some(keep) => Some(DeleteExcept(table, keep))
  }

  // ---- creates ----

  function ReadType(name: string, t: string): Column {
    if EndsWith(t, " PRIMARY KEY") then Column(name, t[..|t| - 12], false, true)
    else if EndsWith(t, " NOT NULL") then Column(name, t[..|t| - 9], false, false)
    else Column(name, t, true, false)
  }

  /** A name, a type, and whether the column is the key or may not be null. */
  function ReadColumn(line: string): Option<Column> {
    match Expect(line, "  ")
    case None => None
    case Some(t) =>
      match ReadName(t)
      case None => None
      case Some((name, rest)) =>
        match Expect(rest, " ")
        case None => None
        case Some(type_) => Some(ReadType(name, type_))
  }

  function ReadColumns(lines: seq<string>): Option<seq<Column>> {
    if lines == [] then Some([])
    else
      match (ReadColumn(lines[0]), ReadColumns(lines[1..]))
      case (Some(c), Some(columns)) => Some([c] + columns)
      case _ => None
  }

  /** A line that names the two key columns of a link table. */
  function ReadKeyLine(line: string): Option<seq<string>> {
    match Expect(line, "  PRIMARY KEY (")
    case None => None
    case Some(t) =>
      match ReadNamesInParens(t)
      case None => None
      case Some((names, rest)) => if rest == "" && |names| == 2 then Some(names) else None
  }

  function ReadTable(table: string, lines: seq<string>): Option<Statement> {
    if lines == [""] then Some(Create(table, []))
    else if |lines| == 3 && ReadKeyLine(lines[2]).Some? then
      match (ReadColumn(lines[0]), ReadColumn(lines[1]))
      case (Some(l), Some(r)) =>
        if l.nullable || l.primaryKey || r.nullable || r.primaryKey then None
        else Some(CreateLink(table, l.name, l.sqlType, r.name, r.sqlType, ReadKeyLine(lines[2]).value))
      case _ => None
    else
      match ReadColumns(lines)
      case None => None
      case Some(columns) => Some(Create(table, columns))
  }

  function ReadCreate(t: string): Option<Statement> {
    match ReadName(t)
    case None => None
    case Some((table, rest)) =>
      match Expect(rest, " (\n")
      case None => None
      case Some(block) =>
        match ReadLines(block)
        case None => None
        case Some((lines, end)) => if end != "" then None else ReadTable(table, lines)
  }

  // ---- statements ----

  function ReadBody(t: string): Option<Statement> {
    if "CREATE TABLE IF NOT EXISTS " <= t then ReadCreate(t[27..])
    else if "INSERT INTO " <= t then ReadInsert(t[12..])
    else if "DELETE FROM " <= t then ReadDelete(t[12..])
    else None
  }

  /** A statement closed by a semicolon. */
  function ReadStatement(t: string): Option<Statement> {
    if t != "" && t[|t| - 1] == ';' then ReadBody(t[..|t| - 1]) else None
  }
}
