/** Reading SQL text: the pieces that statements of both dialects are made of. Nothing here knows how
    the adapters print. */
module SqlReader {
  import opened Common
  import opened Plans
  import opened Literals
  import opened StatementText

  /** What follows an expected text. */
  function Expect(t: string, p: string): (r: Option<string>)
    ensures r.Some? ==> t == p + r.value
  {
    if p <= t then Some(t[|p|..]) else None
  }

  lemma ExpectReads(p: string, rest: string)
    ensures Expect(p + rest, p) == Some(rest)
  {
  }

  lemma Regroup(a: string, b: string, c: string)
    ensures a + b + c == a + (b + c)
  {
  }

  // ---- words and literals ----

  /** The nesting of brackets after one more character; brackets inside quotes do not count. */
  function Deeper(mode: Lexer, depth: nat, c: char): nat {
    if !mode.Outside? then depth
    else if c == '(' || c == '[' then depth + 1
    else if (c == ')' || c == ']') && depth > 0 then depth - 1
    else depth
  }

  predicate Stops(stops: string, mode: Lexer, depth: nat, c: char) {
    mode.Outside? && depth == 0 && c in stops
  }

  /** The text up to the first stop that stands outside quotes and brackets, and what follows. */
  function ReadChunk(stops: string, mode: Lexer, depth: nat, t: string): (r: (string, string))
    ensures t == r.0 + r.1
    decreases |t|
  {
    if t == "" || Stops(stops, mode, depth, t[0]) then ("", t)
    else
      var (chunk, rest) := ReadChunk(stops, LexStep(mode, t[0]), Deeper(mode, depth, t[0]), t[1..]);
      ([t[0]] + chunk, rest)
  }

  /** Where scanning a text without a stop ends up; none when there is one. */
  function ScanEnd(stops: string, mode: Lexer, depth: nat, t: string): Option<(Lexer, nat)>
    decreases |t|
  {
    if t == "" then Some((mode, depth))
    else if Stops(stops, mode, depth, t[0]) then None
    else ScanEnd(stops, LexStep(mode, t[0]), Deeper(mode, depth, t[0]), t[1..])
  }

  /** The text closes its quotes and brackets and has no stop outside them. */
  predicate Whole(stops: string, depth: nat, t: string) {
    ScanEnd(stops, Outside, depth, t) == Some((Outside, depth))
  }

  /** A word or literal that can be told from what follows it. */
  predicate Solid(stops: string, t: string) {
    t != "" && Whole(stops, 0, t)
  }

  lemma {:induction false} ScanConcat(stops: string, mode: Lexer, depth: nat, a: string, b: string)
    ensures ScanEnd(stops, mode, depth, a + b) ==
            match ScanEnd(stops, mode, depth, a)
            case None => None
            case Some((m, d)) => ScanEnd(stops, m, d, b)
    decreases |a|
  {
    if a == "" {
      assert a + b == b;
    } else {
      assert (a + b)[0] == a[0] && (a + b)[1..] == a[1..] + b;
      if !Stops(stops, mode, depth, a[0]) {
        ScanConcat(stops, LexStep(mode, a[0]), Deeper(mode, depth, a[0]), a[1..], b);
      }
    }
  }

  lemma WholeConcat(stops: string, depth: nat, a: string, b: string)
    requires Whole(stops, depth, a) && Whole(stops, depth, b)
    ensures Whole(stops, depth, a + b)
  {
    ScanConcat(stops, Outside, depth, a, b);
  }

  lemma {:induction false} ChunkReadsBack(stops: string, mode: Lexer, depth: nat, t: string, rest: string)
    requires ScanEnd(stops, mode, depth, t) == Some((Outside, 0))
    requires rest == "" || rest[0] in stops
    ensures ReadChunk(stops, mode, depth, t + rest) == (t, rest)
    decreases |t|
  {
    if t == "" {
      assert t + rest == rest;
    } else {
      assert (t + rest)[0] == t[0] && (t + rest)[1..] == t[1..] + rest;
      ChunkReadsBack(stops, LexStep(mode, t[0]), Deeper(mode, depth, t[0]), t[1..], rest);
      assert t == [t[0]] + t[1..];
    }
  }

  /** Words or literals separated by commas. */
  function ReadList(stops: string, t: string): Option<(seq<string>, string)>
    decreases |t|
  {
    var (first, rest) := ReadChunk(stops, Outside, 0, t);
    if first == "" then None
    else
      match Expect(rest, ", ")
      case None => Some(([first], rest))
      case Some(more) =>
        match ReadList(stops, more)
        case None => None
        case Some((others, end)) => Some(([first] + others, end))
  }

  predicate AllSolid(stops: string, parts: seq<string>) {
    forall i :: 0 <= i < |parts| ==> Solid(stops, parts[i])
  }

  /** The text ends here, or goes on with a stop that is no comma. */
  predicate EndsList(stops: string, rest: string) {
    rest == "" || (rest[0] in stops && rest[0] != ',')
  }

  lemma JoinMore(parts: seq<string>, sep: string, rest: string)
    requires |parts| > 1
    ensures Join(parts, sep) + rest == parts[0] + (sep + (Join(parts[1..], sep) + rest))
  {
  }

  lemma LastPart(stops: string, part: string, rest: string)
    requires Solid(stops, part) && EndsList(stops, rest)
    ensures ReadList(stops, part + rest) == Some(([part], rest))
  {
    ChunkReadsBack(stops, Outside, 0, part, rest);
  }

  lemma PartThenMore(stops: string, part: string, more: string, parts: seq<string>, rest: string)
    requires ',' in stops && Solid(stops, part) && ReadList(stops, more) == Some((parts, rest))
    ensures ReadList(stops, part + (", " + more)) == Some(([part] + parts, rest))
  {
    ChunkReadsBack(stops, Outside, 0, part, ", " + more);
    ExpectReads(", ", more);
  }

  lemma {:induction false} ListReadsBack(stops: string, parts: seq<string>, rest: string)
    requires ',' in stops && parts != [] && AllSolid(stops, parts) && EndsList(stops, rest)
    ensures ReadList(stops, Join(parts, ", ") + rest) == Some((parts, rest))
    decreases |parts|
  {
    assert Solid(stops, parts[0]);
    if |parts| == 1 {
      LastPart(stops, parts[0], rest);
      assert parts == [parts[0]];
    } else {
      JoinMore(parts, ", ", rest);
      ListReadsBack(stops, parts[1..], rest);
      PartThenMore(stops, parts[0], Join(parts[1..], ", ") + rest, parts[1..], rest);
      assert parts == [parts[0]] + parts[1..];
    }
  }

  /** A list between parentheses, which may be empty; the opening one has been read. */
  function ReadListInParens(stops: string, t: string): Option<(seq<string>, string)> {
    match Expect(t, ")")
    case Some(rest) => Some(([], rest))
    case None =>
      match ReadList(stops, t)
      case None => None
      case Some((parts, end)) =>
        match Expect(end, ")")
        case None => None
        case Some(rest) => Some((parts, rest))
  }

  lemma {:induction false} SolidStarts(stops: string, parts: seq<string>)
    requires ')' in stops && parts != [] && AllSolid(stops, parts)
    ensures Join(parts, ", ") != "" && Join(parts, ", ")[0] == parts[0][0] != ')'
  {
    assert Solid(stops, parts[0]);
    assert |parts| > 1 ==> Join(parts, ", ")[0] == (parts[0] + ", ")[0];
  }

  lemma ParensReadBack(stops: string, parts: seq<string>, rest: string)
    requires ',' in stops && ')' in stops && AllSolid(stops, parts)
    ensures ReadListInParens(stops, Join(parts, ", ") + (")" + rest)) == Some((parts, rest))
  {
    ExpectReads(")", rest);
    if parts == [] {
      assert Join(parts, ", ") + (")" + rest) == ")" + rest;
    } else {
      SolidStarts(stops, parts);
      ListReadsBack(stops, parts, ")" + rest);
      assert (Join(parts, ", ") + (")" + rest))[0] != ')';
    }
  }

  // ---- lines of a create statement ----

  /** The text up to the first newline. */
  function ReadLine(t: string): (r: (string, string))
    ensures |r.1| <= |t|
  {
    if t == "" || t[0] == '\n' then ("", t)
    else
      var (line, rest) := ReadLine(t[1..]);
      ([t[0]] + line, rest)
  }

  /** Lines separated by commas, up to a line that holds a closing parenthesis. */
  function ReadLines(t: string): Option<(seq<string>, string)>
    decreases |t|
  {
    var (line, rest) := ReadLine(t);
    if rest == "" then None
    else if line != "" && line[|line| - 1] == ',' then
      match ReadLines(rest[1..])
      case None => None
      case Some((lines, end)) => Some(([line[..|line| - 1]] + lines, end))
    else
      match Expect(rest, "\n)")
      case None => None
      case Some(end) => Some(([line], end))
  }

  /** One line that no comma ends. */
  predicate ColumnLine(line: string) {
    NoNewline(line) && (line == "" || line[|line| - 1] != ',')
  }

  lemma {:induction false} LineReadsBack(line: string, rest: string)
    requires NoNewline(line) && rest != "" && rest[0] == '\n'
    ensures ReadLine(line + rest) == (line, rest)
    decreases |line|
  {
    if line == "" {
      assert line + rest == rest;
    } else {
      assert (line + rest)[0] == line[0] && (line + rest)[1..] == line[1..] + rest;
      LineReadsBack(line[1..], rest);
      assert line == [line[0]] + line[1..];
    }
  }

  lemma {:induction false} LinesReadBack(lines: seq<string>, rest: string)
    requires lines != [] && forall i :: 0 <= i < |lines| ==> ColumnLine(lines[i])
    ensures ReadLines(Join(lines, ",\n") + ("\n)" + rest)) == Some((lines, rest))
    decreases |lines|
  {
    var end := "\n)" + rest;
    if |lines| == 1 {
      LineReadsBack(lines[0], end);
      ExpectReads("\n)", rest);
      assert lines == [lines[0]];
    } else {
      var more := Join(lines[1..], ",\n") + end;
      JoinMore(lines, ",\n", end);
      LinesReadBack(lines[1..], rest);
      LineThenMore(lines[0], more, lines[1..], rest);
      assert lines == [lines[0]] + lines[1..];
    }
  }

  lemma LineThenMore(line: string, more: string, lines: seq<string>, rest: string)
    requires NoNewline(line) && ReadLines(more) == Some((lines, rest))
    ensures ReadLines(line + (",\n" + more)) == Some(([line] + lines, rest))
  {
    var comma, end := line + ",", "\n" + more;
    assert line + (",\n" + more) == comma + end;
    LineReadsBack(comma, end);
    assert end[1..] == more && comma[..|comma| - 1] == line && comma[|comma| - 1] == ',';
  }

  // ---- printed literals are solid ----

  /** Neither a quote nor a bracket nor a stop. */
  predicate Free(stops: string, t: string) {
    forall i :: 0 <= i < |t| ==> t[i] !in stops && t[i] != '\'' && t[i] !in "()[]"
  }

  lemma {:induction false} FreeIsWhole(stops: string, depth: nat, t: string)
    requires Free(stops, t)
    ensures Whole(stops, depth, t)
    decreases |t|
  {
    if t != "" {
      assert forall i :: 0 <= i < |t[1..]| ==> t[1..][i] == t[i + 1];
      FreeIsWhole(stops, depth, t[1..]);
    }
  }

  /** Stops that neither quotes nor words begin with. */
  predicate Punctuation(stops: string) {
    forall c :: c in stops ==> c in ",)]\" "
  }

  lemma EscapedCharIsInside(stops: string, depth: nat, d: Dialect, c: char)
    requires Punctuation(stops)
    ensures ScanEnd(stops, Inside, depth, EscapeChar(d, c)) == Some((Inside, depth))
  {
    var e := EscapeChar(d, c);
    if |e| == 2 {
      var first, second := [e[0]], [e[1]];
      assert e == first + second && first[1..] == [] && second[1..] == [];
      ScanConcat(stops, Inside, depth, first, second);
    } else {
      assert e[1..] == [];
    }
  }

  lemma {:induction false} EscapedIsInside(stops: string, depth: nat, d: Dialect, s: string)
    requires Punctuation(stops)
    ensures ScanEnd(stops, Inside, depth, Escape(d, s)) == Some((Inside, depth))
    decreases |s|
  {
    if s != "" {
      EscapedCharIsInside(stops, depth, d, s[0]);
      ScanConcat(stops, Inside, depth, EscapeChar(d, s[0]), Escape(d, s[1..]));
      EscapedIsInside(stops, depth, d, s[1..]);
    }
  }

  lemma QuotedIsWhole(stops: string, depth: nat, d: Dialect, s: string)
    requires Punctuation(stops)
    ensures Whole(stops, depth, QuoteSQLString(d, s))
  {
    var quote := "'";
    assert quote[1..] == "" && !Stops(stops, Outside, depth, '\'');
    assert ScanEnd(stops, Outside, depth, quote) == Some((Inside, depth));
    assert ScanEnd(stops, Inside, depth, quote) == Some((Outside, depth));
    EscapedIsInside(stops, depth, d, s);
    ScanConcat(stops, Outside, depth, quote, Escape(d, s));
    ScanConcat(stops, Outside, depth, quote + Escape(d, s), quote);
    if d.PostgresSql? {
      FreeIsWhole(stops, depth, "E");
      WholeConcat(stops, depth, "E", quote + Escape(d, s) + quote);
      assert "E" + (quote + Escape(d, s) + quote) == QuoteSQLString(d, s);
    }
  }

  /** `number` prints something, without quotes, brackets, commas and blanks. */
  ghost predicate SolidPrinter(printer: Printer) {
    forall n :: printer.number(n) != "" && Free(",\" ", printer.number(n))
  }

  lemma WordsAreFree(stops: string)
    requires Punctuation(stops)
    ensures Free(stops, "NULL") && Free(stops, "TRUE") && Free(stops, "FALSE") && Free(stops, "1") && Free(stops, "0")
    ensures Free(stops, "ARRAY") && Free(stops, "::")
  {
  }

  lemma ScalarIsWhole(stops: string, depth: nat, d: Dialect, printer: Printer, v: Json)
    requires Punctuation(stops) && SolidPrinter(printer)
    ensures Whole(stops, depth, ScalarLiteral(d, printer, v)) && ScalarLiteral(d, printer, v) != ""
  {
    match v
    case JString(s) => QuotedIsWhole(stops, depth, d, s);
    case JArray(_) => QuotedIsWhole(stops, depth, d, printer.marshal(v));
    case JObject(_) => QuotedIsWhole(stops, depth, d, printer.marshal(v));
    case JNumber(n) =>
      assert Free(stops, printer.number(n));
      FreeIsWhole(stops, depth, printer.number(n));
    case _ =>
      WordsAreFree(stops);
      FreeIsWhole(stops, depth, ScalarLiteral(d, printer, v));
  }

  lemma {:induction false} JoinIsWhole(stops: string, depth: nat, parts: seq<string>)
    requires depth > 0 && forall i :: 0 <= i < |parts| ==> Whole(stops, depth, parts[i])
    ensures Whole(stops, depth, Join(parts, ", "))
    decreases |parts|
  {
    if |parts| > 1 {
      JoinIsWhole(stops, depth, parts[1..]);
      assert ", "[1..] == " " && " "[1..] == "";
      WholeConcat(stops, depth, parts[0], ", ");
      WholeConcat(stops, depth, parts[0] + ", ", Join(parts[1..], ", "));
    }
  }

  lemma BracketedIsWhole(stops: string, depth: nat, list: string)
    requires Punctuation(stops) && Whole(stops, depth + 1, list)
    ensures Whole(stops, depth, "[" + list + "]")
  {
    var open, close := "[", "]";
    assert open[1..] == "" && close[1..] == "";
    assert !Stops(stops, Outside, depth, '[');
    assert ScanEnd(stops, Outside, depth, open) == Some((Outside, depth + 1));
    assert ScanEnd(stops, Outside, depth + 1, close) == Some((Outside, depth));
    ScanConcat(stops, Outside, depth, open, list);
    ScanConcat(stops, Outside, depth, open + list, close);
  }

  lemma ListIsWhole(stops: string, depth: nat, d: Dialect, printer: Printer, items: seq<Json>)
    requires Punctuation(stops) && SolidPrinter(printer)
    ensures Whole(stops, depth, "[" + Join(ScalarLiterals(d, printer, items), ", ") + "]")
  {
    var parts := ScalarLiterals(d, printer, items);
    forall i | 0 <= i < |parts| ensures Whole(stops, depth + 1, parts[i]) {
      ScalarIsWhole(stops, depth + 1, d, printer, items[i]);
    }
    JoinIsWhole(stops, depth + 1, parts);
    BracketedIsWhole(stops, depth, Join(parts, ", "));
  }

  /** The element type of an array, where Postgres prints it, must not look like the end of the literal. */
  predicate SolidTypes(stops: string, d: Dialect, v: Value) {
    v.Array? && d.PostgresSql? ==> Whole(stops, 0, TrimArraySuffix(v.elementType))
  }

  /** Every literal the adapters print can be told from what follows it. */
  lemma LiteralIsSolid(stops: string, d: Dialect, printer: Printer, v: Value)
    requires Punctuation(stops) && SolidPrinter(printer) && SolidTypes(stops, d, v)
    ensures Solid(stops, SQLLiteral(d, printer, v))
  {
    match v
    case Scalar(json) => ScalarIsWhole(stops, 0, d, printer, json);
    case Array(items, elementType) =>
      ListIsWhole(stops, 0, d, printer, items);
      if d.PostgresSql? {
        TypedListIsWhole(stops, Join(ScalarLiterals(d, printer, items), ", "), TrimArraySuffix(elementType));
      }
  }

  lemma TypedListIsWhole(stops: string, list: string, t: string)
    requires Punctuation(stops) && Whole(stops, 0, "[" + list + "]") && Whole(stops, 0, t)
    ensures Whole(stops, 0, "ARRAY[" + list + "]::" + t + "[]")
  {
    var items := "[" + list + "]";
    WordsAreFree(stops);
    FreeIsWhole(stops, 0, "ARRAY");
    FreeIsWhole(stops, 0, "::");
    FreeIsWhole(stops, 1, "");
    BracketedIsWhole(stops, 0, "");
    assert "[" + "" + "]" == "[]";
    WholeConcat(stops, 0, "ARRAY", items);
    WholeConcat(stops, 0, "ARRAY" + items, "::");
    WholeConcat(stops, 0, "ARRAY" + items + "::", t);
    WholeConcat(stops, 0, "ARRAY" + items + "::" + t, "[]");
    assert "ARRAY[" + list + "]::" + t + "[]" == "ARRAY" + items + "::" + t + "[]";
  }
}
