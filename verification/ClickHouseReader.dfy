/** Reading ClickHouse statements back from their text. The reader knows SQL, not how the adapter
    prints it; names stand without quotes. */
module ClickHouseReader {
  import opened Common
  import opened Plans
  import opened Literals
  import opened StatementText
  import opened SqlReader

  /** What ends a name or a literal: a comma, a closing parenthesis or a blank. */
  const STOPS := ",) "

  /** What a text says. A create lists its columns with their types and its sorting key; a delete
      lists, for each alternative, the columns that have to be equal to a literal. */
  datatype Sql =
    | CreateSql(table: string, definitions: seq<(string, string)>, sortedBy: seq<string>)
    | InsertSql(table: string, columns: seq<string>, values: seq<string>)
    | DeleteSql(table: string, alternatives: seq<seq<(string, string)>>)
    | TruncateSql(table: string)

  function ReadWord(t: string): (r: (string, string))
    ensures t == r.0 + r.1
  {
    ReadChunk(STOPS, Outside, 0, t)
  }

  // ---- inserts ----

  function ReadInsert(t: string): Option<Sql> {
    var (table, rest) := ReadWord(t);
    match Expect(rest, " (")
    case None => None
    case Some(inner) =>
      match ReadListInParens(STOPS, inner)
      case None => None
      case Some((columns, more)) =>
        match Expect(more, " VALUES (")
        case None => None
        case Some(list) =>
          match ReadListInParens(STOPS, list)
          case None => None
          case Some((values, end)) => if end == "" then Some(InsertSql(table, columns, values)) else None
  }

  // ---- deletes ----

  /** `c = literal`, joined by AND. */
  function ReadEquals(t: string): (r: Option<(seq<(string, string)>, string)>)
    ensures r.Some? ==> |r.value.1| <= |t|
    decreases |t|
  {
    var (column, rest) := ReadWord(t);
    match Expect(rest, " = ")
    case None => None
    case Some(list) =>
      var (literal, more) := ReadWord(list);
      match Expect(more, " AND ")
      case None => Some(([(column, literal)], more))
      case Some(next) =>
        match ReadEquals(next)
        case None => None
        case Some((cells, end)) => Some(([(column, literal)] + cells, end))
  }

  /** One alternative in parentheses, or `1 = 0`, which nothing meets. */
  function ReadAlternative(t: string): (r: Option<(seq<(string, string)>, string)>)
    ensures r.Some? ==> |r.value.1| < |t|
  {
    match Expect(t, "1 = 0")
    case Some(rest) => Some(([], rest))
    case None =>
      match Expect(t, "(")
      case None => None
      case Some(inner) =>
        match ReadEquals(inner)
        case None => None
        case Some((cells, end)) =>
          match Expect(end, ")")
          case None => None
          case Some(rest) => Some((cells, rest))
  }

  function ReadAlternatives(t: string): Option<seq<seq<(string, string)>>>
    decreases |t|
  {
    match ReadAlternative(t)
    case None => None
    case Some((cells, rest)) =>
      if rest == "" then Some([cells])
      else
        match Expect(rest, " OR ")
        case None => None
        case Some(more) =>
          match ReadAlternatives(more)
          case None => None
          case Some(others) => Some([cells] + others)
  }

  function ReadDelete(t: string): Option<Sql> {
    var (table, rest) := ReadWord(t);
    match Expect(rest, " DELETE WHERE ")
    case None => None
    case Some(condition) =>
      match ReadAlternatives(condition)
      case None => None
      case Some(alternatives) => Some(DeleteSql(table, alternatives))
  }

  // ---- creates ----

  function ReadColumn(line: string): Option<(string, string)> {
    match Expect(line, "  ")
    case None => None
    case Some(t) =>
      var (name, rest) := ReadWord(t);
      match Expect(rest, " ")
      case None => None
      case Some(type_) => Some((name, type_))
  }

  function ReadColumns(lines: seq<string>): Option<seq<(string, string)>> {
    if lines == [] then Some([])
    else
      match (ReadColumn(lines[0]), ReadColumns(lines[1..]))
      case (Some(c), Some(columns)) => Some([c] + columns)
      case _ => None
  }

  /** The sorting key of a MergeTree table; `tuple()` stands for none. */
  function ReadEngine(t: string): Option<seq<string>> {
    match Expect(t, "\nENGINE = MergeTree()\nORDER BY ")
    case None => None
    case Some(order) =>
      if order == "tuple()" then Some([])
      else
        match Expect(order, "(")
        case None => None
        case Some(inner) =>
          match ReadListInParens(STOPS, inner)
          case None => None
          case Some((key, end)) => if end == "" && key != [] then Some(key) else None
  }

  function ReadCreate(t: string): Option<Sql> {
    var (table, rest) := ReadWord(t);
    match Expect(rest, " (\n")
    case None => None
    case Some(block) =>
      match ReadLines(block)
      case None => None
      case Some((lines, end)) =>
        match (if lines == [""] then Some([]) else ReadColumns(lines), ReadEngine(end))
        case (Some(columns), Some(key)) => Some(CreateSql(table, columns, key))
        case _ => None
  }

  // ---- statements ----

  function ReadBody(t: string): Option<Sql> {
    if "CREATE TABLE IF NOT EXISTS " <= t then ReadCreate(t[27..])
    else if "INSERT INTO " <= t then ReadInsert(t[12..])
    else if "ALTER TABLE " <= t then ReadDelete(t[12..])
    else if "TRUNCATE TABLE " <= t then Some(TruncateSql(t[15..]))
    else None
  }

  /** A statement closed by a semicolon. */
  function ReadStatement(t: string): Option<Sql> {
    if t != "" && t[|t| - 1] == ';' then ReadBody(t[..|t| - 1]) else None
  }
}
