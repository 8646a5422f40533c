/** Joining printed statements into one text, and splitting the text again before it is applied. */
module StatementText {
  import opened Common
  import opened Plans
  import opened Literals

  /** `strings.Split(text, ";\n")`. */
  function SplitBreaks(text: string): (parts: seq<string>)
    ensures |parts| > 0
  {
    if text == "" then [""]
    else if |text| >= 2 && text[0] == ';' && text[1] == '\n' then [""] + SplitBreaks(text[2..])
    else
      var rest := SplitBreaks(text[1..]);
      [[text[0]] + rest[0]] + rest[1..]
  }

  /** One part, trimmed and closed by a semicolon; none when blank. */
  function Normalize(part: string): Option<string> {
    var stmt := TrimSpace(part);
    if stmt == "" then None
    else if stmt[|stmt| - 1] == ';' then Some(stmt)
    else Some(stmt + ";")
  }

  function NormalizeAll(parts: seq<string>): seq<string> {
    if parts == [] then []
    else
      var front := NormalizeAll(parts[..|parts| - 1]);
      match Normalize(parts[|parts| - 1])
      case None => front
      case Some(stmt) => front + [stmt]
  }

  function Split(text: string): seq<string> {
    NormalizeAll(SplitBreaks(text))
  }

  method SplitStatements(text: string) returns (stmts: seq<string>)
    ensures stmts == Split(text)
  {
    var parts := SplitBreaks(text);
    stmts := [];
    for i := 0 to |parts|
      invariant stmts == NormalizeAll(parts[..i])
    {
      assert parts[..i + 1][..i] == parts[..i];
      var stmt := TrimSpace(parts[i]);
      if stmt == "" {
        continue;
      }
      if stmt[|stmt| - 1] != ';' {
        stmt := stmt + ";";
      }
      stmts := stmts + [stmt];
    }
    assert parts[..|parts|] == parts;
  }

  // ---- texts without a statement break ----

  predicate Calm(s: string) {
    forall i :: 0 <= i < |s| - 1 ==> !(s[i] == ';' && s[i + 1] == '\n')
  }

  predicate NoNewline(s: string) {
    '\n' !in s
  }

  predicate EndsOpen(s: string) {
    s == "" || s[|s| - 1] != ';'
  }

  lemma CalmConcat(a: string, b: string)
    requires Calm(a) && Calm(b) && (EndsOpen(a) || b == "" || b[0] != '\n')
    ensures Calm(a + b)
  {
    var s := a + b;
    forall i | 0 <= i < |s| - 1 ensures !(s[i] == ';' && s[i + 1] == '\n') {
      if i + 1 < |a| {
        assert s[i] == a[i] && s[i + 1] == a[i + 1];
      } else if i >= |a| {
        assert s[i] == b[i - |a|] && s[i + 1] == b[i - |a| + 1];
      } else {
        assert s[i] == a[|a| - 1] && s[i + 1] == b[0];
      }
    }
  }

  lemma {:induction false} SplitCalm(s: string)
    requires Calm(s)
    ensures SplitBreaks(s) == [s]
    decreases |s|
  {
    if s != "" {
      CalmSuffix(s);
      SplitCalm(s[1..]);
      assert s == [s[0]] + s[1..];
    }
  }

  lemma CalmSuffix(s: string)
    requires Calm(s) && s != ""
    ensures Calm(s[1..]) && !(|s| >= 2 && s[0] == ';' && s[1] == '\n')
  {
    forall i | 0 <= i < |s[1..]| - 1 ensures !(s[1..][i] == ';' && s[1..][i + 1] == '\n') {
      assert s[1..][i] == s[i + 1] && s[1..][i + 1] == s[i + 2];
    }
    if |s| >= 2 {
      assert !(s[0] == ';' && s[0 + 1] == '\n');
    }
  }

  lemma {:induction false} SplitFirst(body: string, rest: string)
    requires Calm(body)
    ensures SplitBreaks(body + ";\n" + rest) == [body] + SplitBreaks(rest)
    decreases |body|
  {
    var text := body + ";\n" + rest;
    if body == "" {
      assert text[2..] == rest;
    } else {
      CalmSuffix(body);
      assert text[0] == body[0] && text[1..] == body[1..] + ";\n" + rest;
      SplitFirst(body[1..], rest);
      assert body == [body[0]] + body[1..];
    }
  }

  // ---- printed statements ----

  function Terminated(bodies: seq<string>): seq<string> {
    seq(|bodies|, i requires 0 <= i < |bodies| => bodies[i] + ";")
  }

  /** What splitting makes of joined statements: each body behind the newline that separated it,
      the last one with its semicolon. */
  function Parts(prefix: string, bodies: seq<string>): seq<string>
    requires bodies != []
    decreases |bodies|
  {
    if |bodies| == 1 then [prefix + bodies[0] + ";"] else [prefix + bodies[0]] + Parts("\n", bodies[1..])
  }

  /** A statement body as the adapters print them: it opens with a keyword and has no break. */
  predicate Body(s: string) {
    s != "" && !IsSpace(s[0]) && Calm(s)
  }

  lemma {:induction false} JoinedSplitsInParts(prefix: string, bodies: seq<string>)
    requires bodies != [] && prefix in {"", "\n"}
    requires forall i :: 0 <= i < |bodies| ==> Body(bodies[i])
    ensures SplitBreaks(prefix + Join(Terminated(bodies), "\n\n")) == Parts(prefix, bodies)
    decreases |bodies|
  {
    var body, lines := bodies[0], Terminated(bodies);
    CalmConcat(prefix, body);
    if |bodies| == 1 {
      CalmConcat(prefix + body, ";");
      assert prefix + lines[0] == prefix + body + ";";
      SplitCalm(prefix + body + ";");
    } else {
      assert lines[1..] == Terminated(bodies[1..]);
      var rest := "\n" + Join(lines[1..], "\n\n");
      assert prefix + Join(lines, "\n\n") == (prefix + body) + ";\n" + rest;
      SplitFirst(prefix + body, rest);
      JoinedSplitsInParts("\n", bodies[1..]);
    }
  }

  /** The end of a body that normalising leaves alone. */
  predicate Tight(s: string) {
    s != "" && !IsSpace(s[|s| - 1]) && s[|s| - 1] != ';'
  }

  lemma TightConcat(a: string, b: string)
    requires Tight(b)
    ensures Tight(a + b)
  {
    assert (a + b)[|a + b| - 1] == b[|b| - 1];
  }

  /** A block on lines of its own between an opening line and a closing parenthesis. */
  lemma BlockIsBody(head: string, block: string)
    requires Body(head) && EndsOpen(head) && Calm(block) && EndsOpen(block)
    ensures Body(head + "\n" + block + "\n)") && Tight(head + "\n" + block + "\n)")
  {
    CalmConcat(head, "\n");
    CalmConcat(head + "\n", block);
    CalmConcat(head + "\n" + block, "\n)");
    TightConcat(head + "\n" + block, "\n)");
  }

  lemma {:induction false} TrimRightIs(s: string)
    ensures |TrimRight(s)| <= |s|
    ensures |TrimRight(s)| == |s| ==> TrimRight(s) == s
    ensures TrimRight(s) == s <==> s == "" || !IsSpace(s[|s| - 1])
    decreases |s|
  {
    if s != "" && IsSpace(s[|s| - 1]) {
      TrimRightIs(s[..|s| - 1]);
    }
  }

  lemma {:induction false} TrimRightKeeps(s: string)
    requires s != "" && !IsSpace(s[0])
    ensures TrimRight(s) != "" && TrimRight(s)[0] == s[0]
    decreases |s|
  {
    if IsSpace(s[|s| - 1]) {
      TrimRightKeeps(s[..|s| - 1]);
    }
  }

  lemma TrimPrefixed(prefix: string, s: string)
    requires prefix in {"", "\n"} && s != "" && !IsSpace(s[0])
    ensures TrimSpace(prefix + s) == TrimRight(s)
  {
    assert TrimLeft(s) == s;
    if prefix == "\n" {
      assert (prefix + s)[1..] == s;
    } else {
      assert prefix + s == s;
    }
  }

  /** An inner part normalises to its statement exactly when the body is tight. */
  lemma NormalizeInner(prefix: string, body: string)
    requires prefix in {"", "\n"} && Body(body)
    ensures Normalize(prefix + body).Some?
    ensures Normalize(prefix + body) == Some(body + ";") <==> Tight(body)
  {
    TrimPrefixed(prefix, body);
    TrimRightIs(body);
    TrimRightKeeps(body);
    var t := TrimRight(body);
    EndsCompared(t, body);
  }

  lemma EndsCompared(t: string, body: string)
    ensures t + ";" == body + ";" <==> t == body
    ensures |t| <= |body| ==> t != body + ";"
  {
    assert (t + ";")[..|t|] == t && (body + ";")[..|body|] == body;
    assert |body + ";"| == |body| + 1;
  }

  /** The last part always does: its semicolon is still there. */
  lemma NormalizeLast(prefix: string, body: string)
    requires prefix in {"", "\n"} && Body(body)
    ensures Normalize(prefix + body + ";") == Some(body + ";")
  {
    assert prefix + body + ";" == prefix + (body + ";");
    TrimPrefixed(prefix, body + ";");
    TrimRightIs(body + ";");
  }

  lemma {:induction false} NormalizeAllConcat(a: seq<string>, b: seq<string>)
    ensures NormalizeAll(a + b) == NormalizeAll(a) + NormalizeAll(b)
    decreases |b|
  {
    if b == [] {
      assert a + b == a;
    } else {
      assert (a + b)[..|a + b| - 1] == a + b[..|b| - 1];
      NormalizeAllConcat(a, b[..|b| - 1]);
    }
  }

  lemma NormalizeOne(part: string)
    requires Normalize(part).Some?
    ensures NormalizeAll([part]) == [Normalize(part).value]
  {
    assert [part][..0] == [];
  }

  lemma {:induction false} NormalizedParts(prefix: string, bodies: seq<string>)
    requires bodies != [] && prefix in {"", "\n"}
    requires forall i :: 0 <= i < |bodies| ==> Body(bodies[i])
    ensures |NormalizeAll(Parts(prefix, bodies))| == |bodies|
    ensures NormalizeAll(Parts(prefix, bodies)) == Terminated(bodies) <==>
              forall i :: 0 <= i < |bodies| - 1 ==> Tight(bodies[i])
    decreases |bodies|
  {
    if |bodies| == 1 {
      NormalizeLast(prefix, bodies[0]);
      NormalizeOne(prefix + bodies[0] + ";");
      assert Terminated(bodies) == [bodies[0] + ";"];
    } else {
      var rest := bodies[1..];
      NormalizeInner(prefix, bodies[0]);
      NormalizeOne(prefix + bodies[0]);
      NormalizeAllConcat([prefix + bodies[0]], Parts("\n", rest));
      NormalizedParts("\n", rest);
      TightSplit(bodies);
      var first, tail := Normalize(prefix + bodies[0]).value, NormalizeAll(Parts("\n", rest));
      assert Terminated(bodies) == [bodies[0] + ";"] + Terminated(rest);
      ConsEqual(first, tail, bodies[0] + ";", Terminated(rest));
    }
  }

  lemma TightSplit(bodies: seq<string>)
    requires |bodies| > 1
    ensures (forall i :: 0 <= i < |bodies| - 1 ==> Tight(bodies[i]))
       <==> Tight(bodies[0]) && forall i :: 0 <= i < |bodies[1..]| - 1 ==> Tight(bodies[1..][i])
  {
    if Tight(bodies[0]) && forall i :: 0 <= i < |bodies[1..]| - 1 ==> Tight(bodies[1..][i]) {
      forall i | 0 <= i < |bodies| - 1 ensures Tight(bodies[i]) {
        if i > 0 { assert bodies[i] == bodies[1..][i - 1]; }
      }
    }
  }

  lemma ConsEqual(a: string, x: seq<string>, b: string, y: seq<string>)
    ensures [a] + x == [b] + y <==> a == b && x == y
  {
    if [a] + x == [b] + y {
      assert a == ([a] + x)[0] == ([b] + y)[0] == b;
      assert x == ([a] + x)[1..] == ([b] + y)[1..] == y;
    }
  }

  /** Printing and splitting: as many statements come out as went in, and they are the same ones
      exactly when every body but the last ends in something other than white space and a
      semicolon. */
  lemma SplitGivesBack(bodies: seq<string>)
    requires bodies != [] && forall i :: 0 <= i < |bodies| ==> Body(bodies[i])
    ensures |Split(Join(Terminated(bodies), "\n\n"))| == |bodies|
    ensures Split(Join(Terminated(bodies), "\n\n")) == Terminated(bodies) <==>
              forall i :: 0 <= i < |bodies| - 1 ==> Tight(bodies[i])
  {
    JoinedSplitsInParts("", bodies);
    NormalizedParts("", bodies);
    assert "" + Join(Terminated(bodies), "\n\n") == Join(Terminated(bodies), "\n\n");
  }

  // ---- pieces of statements without newlines ----

  predicate CleanNames(names: seq<string>) {
    forall i :: 0 <= i < |names| ==> NoNewline(names[i])
  }

  lemma {:induction false} KeyColumnsAreClean(columns: seq<Column>)
    requires forall i :: 0 <= i < |columns| ==> NoNewline(columns[i].name)
    ensures CleanNames(PrimaryKeyColumns(columns))
    decreases |columns|
  {
    if columns != [] {
      KeyColumnsAreClean(columns[..|columns| - 1]);
    }
  }

  predicate CleanType(t: string) {
    NoNewline(t) && EndsOpen(t)
  }

  predicate CleanRow(row: LiteralRow) {
    CleanNames(row.columns) && CleanNames(row.values)
  }

  lemma NoNewlineIsCalm(s: string)
    requires NoNewline(s)
    ensures Calm(s)
  {
  }

  lemma {:induction false} JoinIsClean(parts: seq<string>, sep: string)
    requires CleanNames(parts) && NoNewline(sep)
    ensures NoNewline(Join(parts, sep))
    decreases |parts|
  {
    if |parts| > 1 {
      JoinIsClean(parts[1..], sep);
    }
  }

  /** Lines joined by a comma and a newline: calm, and open at the end. */
  lemma {:induction false} LinesAreCalm(parts: seq<string>)
    requires forall i :: 0 <= i < |parts| ==> NoNewline(parts[i]) && EndsOpen(parts[i])
    ensures Calm(Join(parts, ",\n")) && EndsOpen(Join(parts, ",\n"))
    decreases |parts|
  {
    if |parts| == 1 {
      NoNewlineIsCalm(parts[0]);
    } else if |parts| > 1 {
      LinesAreCalm(parts[1..]);
      NoNewlineIsCalm(parts[0]);
      CalmConcat(parts[0], ",\n");
      CalmConcat(parts[0] + ",\n", Join(parts[1..], ",\n"));
    }
  }

  /** A create statement: its newlines follow an opening parenthesis, commas and column texts. */
  lemma LinesInBlock(head: string, lines: seq<string>)
    requires Body(head) && EndsOpen(head)
    requires forall i :: 0 <= i < |lines| ==> NoNewline(lines[i]) && EndsOpen(lines[i])
    ensures Body(head + "\n" + Join(lines, ",\n") + "\n)") && Tight(head + "\n" + Join(lines, ",\n") + "\n)")
  {
    LinesAreCalm(lines);
    BlockIsBody(head, Join(lines, ",\n"));
  }

  // ---- literals hold no newline ----

  ghost predicate SingleLinePrinter(printer: Printer) {
    forall n :: NoNewline(printer.number(n))
  }

  lemma {:induction false} EscapeHasNoNewline(d: Dialect, s: string)
    ensures NoNewline(Escape(d, s))
    decreases |s|
  {
    if s != "" {
      EscapeHasNoNewline(d, s[1..]);
    }
  }

  lemma ScalarHasNoNewline(d: Dialect, printer: Printer, v: Json)
    requires SingleLinePrinter(printer)
    ensures NoNewline(ScalarLiteral(d, printer, v))
  {
    match v
    case JString(s) => EscapeHasNoNewline(d, s);
    case JArray(_) => EscapeHasNoNewline(d, printer.marshal(v));
    case JObject(_) => EscapeHasNoNewline(d, printer.marshal(v));
    case _ =>
  }

  /** Whatever strings a value holds, its literal is a single line. */
  lemma LiteralHasNoNewline(d: Dialect, printer: Printer, v: Value)
    requires SingleLinePrinter(printer) && (v.Array? ==> NoNewline(v.elementType))
    ensures NoNewline(SQLLiteral(d, printer, v))
  {
    match v
    case Scalar(json) => ScalarHasNoNewline(d, printer, json);
    case Array(items, elementType) =>
      var parts := ScalarLiterals(d, printer, items);
      forall i | 0 <= i < |parts| ensures NoNewline(parts[i]) { ScalarHasNoNewline(d, printer, items[i]); }
      JoinIsClean(parts, ", ");
  }

  /** The names and types in a plan's row hold no newline; its strings may hold anything. */
  predicate CleanPlanRow(row: PlanRow) {
    CleanNames(row.columns) &&
    forall i :: 0 <= i < |row.values| && row.values[i].Array? ==> NoNewline(row.values[i].elementType)
  }

  lemma PrintedRowIsClean(d: Dialect, printer: Printer, row: PlanRow)
    requires SingleLinePrinter(printer) && CleanPlanRow(row)
    ensures CleanRow(Printed(LiteralOf(d, printer), row))
  {
    forall i | 0 <= i < |row.values| ensures NoNewline(Printed(LiteralOf(d, printer), row).values[i]) {
      LiteralHasNoNewline(d, printer, row.values[i]);
    }
  }

  lemma PrintedRowsAreClean(d: Dialect, printer: Printer, rows: seq<PlanRow>)
    requires SingleLinePrinter(printer) && forall r :: r in rows ==> CleanPlanRow(r)
    ensures forall r :: r in PrintedAll(LiteralOf(d, printer), rows) ==> CleanRow(r)
  {
    forall i | 0 <= i < |rows| ensures CleanRow(PrintedAll(LiteralOf(d, printer), rows)[i]) {
      PrintedRowIsClean(d, printer, rows[i]);
    }
  }

  /** What a plan's names have to satisfy for its text to split back. */
  predicate CleanOp(op: Op) {
    NoNewline(op.table) &&
    match op
    case CreateTable(_, columns) => forall i ::
                                      0 <= i < |columns| ==> NoNewline(columns[i].name) && CleanType(columns[i].sqlType)
    case CreateLinkTable(_, lc, lt, rc, rt, linkKey) => NoNewline(lc) && NoNewline(rc) && NoNewline(lt) &&
                                                        NoNewline(rt) && CleanNames(linkKey)
    case InsertRows(_, rows) => forall r :: r in rows ==> CleanPlanRow(r)
  }
}
