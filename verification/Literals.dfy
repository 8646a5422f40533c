/** SQL literals as both adapters print them, and the key that spots repeated inserts. */
module Literals {
  import opened Common
  import opened Plans

  datatype Dialect = PostgresSql | ClickHouseSql

  /** `number` prints a float as `%v` does, `marshal` is `json.Marshal`. */
  datatype Printer = Printer(number: real -> string, marshal: Json -> string)

  function EscapeChar(d: Dialect, c: char): string {
    if c == '\\' then "\\\\"
    else if c == '\'' then (if d.PostgresSql? then "''" else "\\'")
    else if c == '\n' then "\\n"
    else if c == '\r' then "\\r"
    else if c == '\t' then "\\t"
    else [c]
  }

  function Escape(d: Dialect, s: string): string {
    if s == [] then "" else EscapeChar(d, s[0]) + Escape(d, s[1..])
  }

  function QuoteSQLString(d: Dialect, s: string): string {
    (if d.PostgresSql? then "E'" else "'") + Escape(d, s) + "'"
  }

  function Join(parts: seq<string>, sep: string): string {
    if parts == [] then "" else if |parts| == 1 then parts[0] else parts[0] + sep + Join(parts[1..], sep)
  }

  function ScalarLiteral(d: Dialect, printer: Printer, v: Json): string {
    match v
    case JNull => "NULL"
    case JString(s) => QuoteSQLString(d, s)
    case JBool(b) => if d.PostgresSql? then (if b then "TRUE" else "FALSE") else (if b then "1" else "0")
    case JNumber(n) => printer.number(n)
    case JArray(_) => QuoteSQLString(d, printer.marshal(v))
    case JObject(_) => QuoteSQLString(d, printer.marshal(v))
  }

  function ScalarLiterals(d: Dialect, printer: Printer, vs: seq<Json>): seq<string> {
    seq(|vs|, i requires 0 <= i < |vs| => ScalarLiteral(d, printer, vs[i]))
  }

  function TrimArraySuffix(t: string): string {
    if |t| >= 2 && t[|t| - 2..] == "[]" then t[..|t| - 2] else t
  }

  function SQLLiteral(d: Dialect, printer: Printer, v: Value): string {
    match v
    case Scalar(json) => ScalarLiteral(d, printer, json)
    case Array(items, elementType) =>
      var list := Join(ScalarLiterals(d, printer, items), ", ");
      if d.PostgresSql? then "ARRAY[" + list + "]::" + TrimArraySuffix(elementType) + "[]" else "[" + list + "]"
  }

  /** The adapter's printer of values. */
  function LiteralOf(d: Dialect, printer: Printer): Value -> string {
    (v: Value) => SQLLiteral(d, printer, v)
  }

  // ---- a literal can be read back ----

  function UnescapeChar(c: char): char {
    if c == 'n' then '\n' else if c == 'r' then '\r' else if c == 't' then '\t' else c
  }

  /** Reads a quoted string after its opening quote: the text it denotes and what follows the
      closing quote. A doubled quote and a backslash pair each stand for one character. */
  function ReadQuoted(t: string): Option<(string, string)>
    decreases |t|
  {
    if t == [] then None
    else if t[0] == '\'' && !(|t| > 1 && t[1] == '\'') then Some(("", t[1..]))
    else if (t[0] == '\'' || t[0] == '\\') && |t| > 1 then
      match ReadQuoted(t[2..])
      case None => None
      case Some((s, rest)) => Some(([if t[0] == '\\' then UnescapeChar(t[1]) else '\''] + s, rest))
    else if t[0] == '\\' then None
    else
      match ReadQuoted(t[1..])
      case None => None
      case Some((s, rest)) => Some(([t[0]] + s, rest))
  }

  function Prepend(c: char, read: Option<(string, string)>): Option<(string, string)> {
    match read
    case None => None
    case Some((s, rest)) => Some(([c] + s, rest))
  }

  lemma ReadsPlain(c: char, tail: string)
    requires c != '\'' && c != '\\'
    ensures ReadQuoted([c] + tail) == Prepend(c, ReadQuoted(tail))
  {
    assert ([c] + tail)[1..] == tail;
  }

  lemma ReadsPair(a: char, b: char, tail: string)
    requires a == '\\' || (a == '\'' && b == '\'')
    ensures ReadQuoted([a, b] + tail) == Prepend(if a == '\\' then UnescapeChar(b) else '\'', ReadQuoted(tail))
  {
    assert ([a, b] + tail)[2..] == tail;
  }

  lemma ReadsOneCharacter(d: Dialect, c: char, tail: string)
    ensures ReadQuoted(EscapeChar(d, c) + tail) == Prepend(c, ReadQuoted(tail))
  {
    var e := EscapeChar(d, c);
    if |e| == 1 {
      ReadsPlain(c, tail);
    } else {
      ReadsPair(e[0], e[1], tail);
    }
  }

  /** Quoting loses nothing and is self-delimiting: reading gives back the string and stops at the
      closing quote exactly when no further quote follows it; with one, more is read. */
  lemma {:induction false} QuotedReadsBack(d: Dialect, s: string, rest: string)
    ensures ReadQuoted(Escape(d, s) + "'" + rest) == Some((s, rest)) <==> rest == [] || rest[0] != '\''
    ensures rest != [] && rest[0] == '\'' ==>
              ReadQuoted(Escape(d, s) + "'" + rest) == None || |ReadQuoted(Escape(d, s) + "'" + rest).value.0| > |s|
    decreases |s|
  {
    var t := Escape(d, s) + "'" + rest;
    if s == [] {
      assert t == "'" + rest && t[1..] == rest;
      assert rest != [] ==> t[1] == rest[0];
    } else {
      QuotedReadsBack(d, s[1..], rest);
      var e, tail := EscapeChar(d, s[0]), Escape(d, s[1..]) + "'" + rest;
      assert t == e + tail;
      ReadsOneCharacter(d, s[0], tail);
      assert s == [s[0]] + s[1..];
    }
  }

  lemma ReadsWhole(d: Dialect, s: string)
    ensures ReadQuoted(Escape(d, s) + "'") == Some((s, ""))
  {
    QuotedReadsBack(d, s, "");
    assert Escape(d, s) + "'" + "" == Escape(d, s) + "'";
  }

  lemma AfterOpening(d: Dialect, s: string)
    ensures QuoteSQLString(d, s)[if d.PostgresSql? then 2 else 1..] == Escape(d, s) + "'"
  {
    var p := if d.PostgresSql? then "E'" else "'";
    assert QuoteSQLString(d, s) == p + (Escape(d, s) + "'");
  }

  lemma QuotingIsInjective(d: Dialect, a: string, b: string)
    requires QuoteSQLString(d, a) == QuoteSQLString(d, b)
    ensures a == b
  {
    AfterOpening(d, a);
    AfterOpening(d, b);
    ReadsWhole(d, a);
    ReadsWhole(d, b);
  }

  // ---- where a literal ends ----

  datatype Lexer = Outside | Inside | AfterBackslash

  function LexStep(state: Lexer, c: char): Lexer {
    match state
    case Outside => if c == '\'' then Inside else Outside
    case Inside => if c == '\'' then Outside else if c == '\\' then AfterBackslash else Inside
    case AfterBackslash => Inside
  }

  function Lex(state: Lexer, t: string): Lexer
    decreases |t|
  {
    if t == [] then state else Lex(LexStep(state, t[0]), t[1..])
  }

  /** No bar stands outside quotes. */
  predicate NoBar(state: Lexer, t: string)
    decreases |t|
  {
    t == [] || (!(state.Outside? && t[0] == '|') && NoBar(LexStep(state, t[0]), t[1..]))
  }

  /** The text opens and closes its own quotes and has no bar outside them. */
  predicate Closed(t: string) {
    Lex(Outside, t) == Outside && NoBar(Outside, t)
  }

  predicate Plain(t: string) {
    '\'' !in t && '|' !in t
  }

  ghost predicate PlainPrinter(printer: Printer) {
    forall n :: Plain(printer.number(n))
  }

  lemma {:induction false} LexConcat(state: Lexer, a: string, b: string)
    ensures Lex(state, a + b) == Lex(Lex(state, a), b)
    ensures NoBar(state, a + b) == (NoBar(state, a) && NoBar(Lex(state, a), b))
    decreases |a|
  {
    if a == [] {
      assert a + b == b;
    } else {
      assert (a + b)[0] == a[0] && (a + b)[1..] == a[1..] + b;
      LexConcat(LexStep(state, a[0]), a[1..], b);
    }
  }

  lemma {:induction false} PlainIsClosed(t: string)
    requires Plain(t)
    ensures Closed(t)
    decreases |t|
  {
    if t != [] {
      PlainIsClosed(t[1..]);
    }
  }

  lemma ClosedConcat(a: string, b: string)
    requires Closed(a) && Closed(b)
    ensures Closed(a + b)
  {
    LexConcat(Outside, a, b);
  }

  lemma EscapedCharStaysInside(d: Dialect, c: char)
    ensures Lex(Inside, EscapeChar(d, c)) == Inside && NoBar(Inside, EscapeChar(d, c))
  {
    var e := EscapeChar(d, c);
    if |e| == 2 {
      var first, second := [e[0]], [e[1]];
      assert e == first + second && first[1..] == [] && second[1..] == [];
      LexConcat(Inside, first, second);
    } else {
      assert e[1..] == [];
    }
  }

  lemma {:induction false} EscapedStaysInside(d: Dialect, s: string)
    ensures Lex(Inside, Escape(d, s)) == Inside && NoBar(Inside, Escape(d, s))
    decreases |s|
  {
    if s != [] {
      var e := EscapeChar(d, s[0]);
      EscapedCharStaysInside(d, s[0]);
      LexConcat(Inside, e, Escape(d, s[1..]));
      EscapedStaysInside(d, s[1..]);
    }
  }

  lemma QuotedIsClosed(d: Dialect, s: string)
    ensures Closed(QuoteSQLString(d, s))
  {
    var open := if d.PostgresSql? then "E'" else "'";
    assert Lex(Outside, open) == Inside && NoBar(Outside, open) by {
      if d.PostgresSql? { assert open[1..] == "'" && open[1..][1..] == ""; } else { assert open[1..] == ""; }
    }
    EscapedStaysInside(d, s);
    LexConcat(Outside, open, Escape(d, s));
    assert Lex(Inside, "'") == Outside && NoBar(Inside, "'") by { assert "'"[1..] == ""; }
    LexConcat(Outside, open + Escape(d, s), "'");
  }

  lemma {:induction false} JoinIsClosed(parts: seq<string>, sep: string)
    requires Closed(sep) && forall i :: 0 <= i < |parts| ==> Closed(parts[i])
    ensures Closed(Join(parts, sep))
    decreases |parts|
  {
    if |parts| > 1 {
      JoinIsClosed(parts[1..], sep);
      ClosedConcat(parts[0], sep);
      ClosedConcat(parts[0] + sep, Join(parts[1..], sep));
    }
  }

  lemma ScalarIsClosed(d: Dialect, printer: Printer, v: Json)
    requires PlainPrinter(printer)
    ensures Closed(ScalarLiteral(d, printer, v))
  {
    match v
    case JString(s) => QuotedIsClosed(d, s);
    case JArray(_) => QuotedIsClosed(d, printer.marshal(v));
    case JObject(_) => QuotedIsClosed(d, printer.marshal(v));
    case _ => PlainIsClosed(ScalarLiteral(d, printer, v));
  }

  lemma ListIsClosed(d: Dialect, printer: Printer, items: seq<Json>)
    requires PlainPrinter(printer)
    ensures Closed(Join(ScalarLiterals(d, printer, items), ", "))
  {
    var parts := ScalarLiterals(d, printer, items);
    forall i | 0 <= i < |parts| ensures Closed(parts[i]) { ScalarIsClosed(d, printer, items[i]); }
    PlainIsClosed(", ");
    JoinIsClosed(parts, ", ");
  }

  lemma WrappedIsClosed(before: string, list: string, after: string)
    requires Plain(before) && Plain(after) && Closed(list)
    ensures Closed(before + list + after)
  {
    PlainIsClosed(before);
    PlainIsClosed(after);
    ClosedConcat(before, list);
    ClosedConcat(before + list, after);
  }

  lemma LiteralIsClosed(d: Dialect, printer: Printer, v: Value)
    requires PlainPrinter(printer) && (v.Array? ==> Plain(v.elementType))
    ensures Closed(SQLLiteral(d, printer, v))
  {
    match v
    case Scalar(json) => ScalarIsClosed(d, printer, json);
    case Array(items, elementType) =>
      ListIsClosed(d, printer, items);
      var list := Join(ScalarLiterals(d, printer, items), ", ");
      var after := "]::" + TrimArraySuffix(elementType) + "[]";
      WrappedIsClosed("[", list, "]");
      WrappedIsClosed("ARRAY[", list, after);
      assert "ARRAY[" + list + "]::" + TrimArraySuffix(elementType) + "[]" == "ARRAY[" + list + after;
  }

  // ---- the dedup key ----

  function KeyParts(pk: seq<string>, literals: seq<string>): seq<string>
    requires |pk| == |literals|
  {
    seq(|pk|, i requires 0 <= i < |pk| => pk[i] + "=" + literals[i])
  }

  /** `buildInsertDedupKey`: none when the table has no key or the row lacks a key column. */
  function DedupKey(table: string, row: LiteralRow, pk: seq<string>): Option<string> {
    if pk == [] || !CarriesAll(row, pk) then None
    else Some(Join([table] + KeyParts(pk, KeyOf(row, pk)), "|"))
  }

  function Tail(pk: seq<string>, literals: seq<string>): string
    requires |pk| == |literals|
  {
    if pk == [] then "" else "|" + pk[0] + "=" + literals[0] + Tail(pk[1..], literals[1..])
  }

  lemma {:induction false} JoinIsTail(head: string, pk: seq<string>, literals: seq<string>)
    requires |pk| == |literals|
    ensures Join([head] + KeyParts(pk, literals), "|") == head + Tail(pk, literals)
    decreases |pk|
  {
    var parts := KeyParts(pk, literals);
    if pk == [] {
      assert [head] + parts == [head];
    } else {
      assert parts[1..] == KeyParts(pk[1..], literals[1..]);
      assert ([head] + parts)[1..] == [parts[0]] + parts[1..];
      JoinIsTail(parts[0], pk[1..], literals[1..]);
    }
  }

  lemma ABarEndsClosed(a: string, rest: string)
    requires Closed(a) && rest != "" && rest[0] == '|'
    ensures !Closed(a + rest)
  {
    LexConcat(Outside, a, rest);
  }

  /** A closed text is found again at the front of a longer one: it ends at the first bar that
      stands outside quotes. */
  lemma ClosedSplitsAtBar(a: string, x: string, b: string, y: string)
    requires Closed(a) && Closed(b) && a + x == b + y
    requires x == "" || x[0] == '|'
    requires y == "" || y[0] == '|'
    ensures a == b && x == y
  {
    var whole := a + x;
    assert whole[..|a|] == a && whole[|a|..] == x && whole[..|b|] == b && whole[|b|..] == y;
    if |a| < |b| {
      assert b == a + whole[|a|..|b|];
      ABarEndsClosed(a, whole[|a|..|b|]);
    } else if |b| < |a| {
      assert a == b + whole[|b|..|a|];
      ABarEndsClosed(b, whole[|b|..|a|]);
    }
  }

  lemma {:induction false} TailIsInjective(pk: seq<string>, a: seq<string>, b: seq<string>)
    requires |pk| == |a| == |b|
    requires forall i :: 0 <= i < |pk| ==> Closed(a[i]) && Closed(b[i])
    requires Tail(pk, a) == Tail(pk, b)
    ensures a == b
    decreases |pk|
  {
    if pk != [] {
      var p := "|" + pk[0] + "=";
      var x, y := Tail(pk[1..], a[1..]), Tail(pk[1..], b[1..]);
      assert Tail(pk, a) == p + (a[0] + x) && Tail(pk, b) == p + (b[0] + y);
      assert a[0] + x == Tail(pk, a)[|p|..] == Tail(pk, b)[|p|..] == b[0] + y;
      ClosedSplitsAtBar(a[0], x, b[0], y);
      TailIsInjective(pk[1..], a[1..], b[1..]);
      assert a == [a[0]] + a[1..] && b == [b[0]] + b[1..];
    }
  }

  predicate PlainTypes(row: PlanRow) {
    forall i :: 0 <= i < |row.values| && row.values[i].Array? ==> Plain(row.values[i].elementType)
  }

  /** Two rows of a table share a dedup key exactly when their key literals agree column by
      column, whatever the strings in them contain. */
  lemma DedupKeyIsInjective(d: Dialect, printer: Printer, table: string, pk: seq<string>, r1: PlanRow, r2: PlanRow)
    requires PlainPrinter(printer) && PlainTypes(r1) && PlainTypes(r2)
    requires pk != [] && CarriesAll(r1, pk) && CarriesAll(r2, pk)
    ensures var p1, p2 := Printed(LiteralOf(d, printer), r1), Printed(LiteralOf(d, printer), r2);
            && CarriesAll(p1, pk) && CarriesAll(p2, pk)
            && (DedupKey(table, p1, pk) == DedupKey(table, p2, pk) <==> KeyOf(p1, pk) == KeyOf(p2, pk))
  {
    var p1, p2 := Printed(LiteralOf(d, printer), r1), Printed(LiteralOf(d, printer), r2);
    assert forall i :: 0 <= i < |pk| ==> Carries(r1, pk[i]) && Carries(r2, pk[i]);
    var k1, k2 := KeyOf(p1, pk), KeyOf(p2, pk);
    forall i | 0 <= i < |pk| ensures Closed(k1[i]) && Closed(k2[i]) {
      assert k1[i] == SQLLiteral(d, printer, Field(r1, pk[i]));
      LiteralIsClosed(d, printer, Field(r1, pk[i]));
      LiteralIsClosed(d, printer, Field(r2, pk[i]));
    }
    JoinIsTail(table, pk, k1);
    JoinIsTail(table, pk, k2);
    if DedupKey(table, p1, pk) == DedupKey(table, p2, pk) {
      assert Tail(pk, k1) == (table + Tail(pk, k1))[|table|..];
      assert Tail(pk, k2) == (table + Tail(pk, k2))[|table|..];
      TailIsInjective(pk, k1, k2);
    }
  }
}
