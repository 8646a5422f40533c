/** Reading literals back: a printed value says what the value says, up to what SQL has no literal
    for. */
module LiteralReader {
  import opened Common
  import opened Plans
  import opened Literals
  import opened SqlReader

  /** What ends an item of an array. */
  const ITEM_STOPS := ",]"

  /** A number as SQL reads it. */
  type NumberReader = string -> Option<real>

  function ReadScalar(d: Dialect, number: NumberReader, t: string): Option<Json> {
    var opening := if d.PostgresSql? then "E'" else "'";
    if t == "NULL" then Some(JNull)
    else if d.PostgresSql? && t == "TRUE" then Some(JBool(true))
    else if d.PostgresSql? && t == "FALSE" then Some(JBool(false))
    else
      match Expect(t, opening)
      case None =>
        (match number(t)
         case None => None
         case Some(n) => Some(JNumber(n)))
      case Some(quoted) =>
        match ReadQuoted(quoted)
        case None => None
        case Some((text, rest)) => if rest == "" then Some(JString(text)) else None
  }

  function ReadScalars(d: Dialect, number: NumberReader, parts: seq<string>): Option<seq<Json>> {
    if parts == [] then Some([])
    else
      match (ReadScalar(d, number, parts[0]), ReadScalars(d, number, parts[1..]))
      case (Some(v), Some(vs)) => Some([v] + vs)
      case _ => None
  }

  /** Items up to the closing bracket. */
  function ReadItems(t: string): Option<(seq<string>, string)> {
    match Expect(t, "]")
    case Some(rest) => Some(([], rest))
    case None =>
      match ReadList(ITEM_STOPS, t)
      case None => None
      case Some((parts, end)) =>
        match Expect(end, "]")
        case None => None
        case Some(rest) => Some((parts, rest))
  }

  /** The element type of an array; ClickHouse arrays have none in their text. */
  function ReadElementType(d: Dialect, t: string): Option<string> {
    if d.ClickHouseSql? then if t == "" then Some("") else None
    else
      match Expect(t, "::")
      case None => None
      case Some(name) => if |name| >= 2 && name[|name| - 2..] == "[]" then Some(name[..|name| - 2]) else None
  }

  function ReadLiteral(d: Dialect, number: NumberReader, t: string): Option<Value> {
    match Expect(t, if d.PostgresSql? then "ARRAY[" else "[")
    case None =>
      (match ReadScalar(d, number, t)
       case None => None
       case Some(v) => Some(Scalar(v)))
    case Some(list) =>
      match ReadItems(list)
      case None => None
      case Some((parts, rest)) =>
        match (ReadScalars(d, number, parts), ReadElementType(d, rest))
        case (Some(items), Some(elementType)) => Some(Array(items, elementType))
        case _ => None
  }

  // ---- what a literal shows of a value ----

  /** Objects and lists are shown as JSON text, and ClickHouse shows booleans as 1 and 0. */
  function ShownScalar(d: Dialect, printer: Printer, v: Json): Json {
    match v
    case JArray(_) => JString(printer.marshal(v))
    case JObject(_) => JString(printer.marshal(v))
    case JBool(b) => if d.PostgresSql? then v else JNumber(if b then 1.0 else 0.0)
    case _ => v
  }

  function ShownScalars(d: Dialect, printer: Printer, vs: seq<Json>): seq<Json> {
    seq(|vs|, i requires 0 <= i < |vs| => ShownScalar(d, printer, vs[i]))
  }

  /** A type without the brackets that make it an array type. */
  function ElementOf(t: string): string {
    if |t| < 2 || t[|t| - 2] != '[' || t[|t| - 1] != ']' then t else t[..|t| - 2]
  }

  function ShownValue(d: Dialect, printer: Printer, v: Value): Value {
    match v
    case Scalar(json) => Scalar(ShownScalar(d, printer, json))
    case Array(items, elementType) =>
      Array(ShownScalars(d, printer, items), if d.PostgresSql? then ElementOf(elementType) else "")
  }

  predicate LooksLikeNumber(t: string) {
    t != "" && t[0] in "-0123456789"
  }

  /** Numbers are printed as numbers and read back. */
  ghost predicate NumbersReadBack(printer: Printer, number: NumberReader) {
    && (forall n :: LooksLikeNumber(printer.number(n)) && number(printer.number(n)) == Some(n))
    && number("1") == Some(1.0) && number("0") == Some(0.0)
  }

  lemma NumberReads(d: Dialect, number: NumberReader, t: string, n: real)
    requires LooksLikeNumber(t) && number(t) == Some(n)
    ensures ReadScalar(d, number, t) == Some(JNumber(n))
  {
    assert t[0] != 'N' && t[0] != 'T' && t[0] != 'F' && t[0] != 'E' && t[0] != '\'';
  }

  lemma QuotedReads(d: Dialect, number: NumberReader, s: string)
    ensures ReadScalar(d, number, QuoteSQLString(d, s)) == Some(JString(s))
  {
    var opening := if d.PostgresSql? then "E'" else "'";
    var t := QuoteSQLString(d, s);
    assert t == opening + (Escape(d, s) + "'");
    ExpectReads(opening, Escape(d, s) + "'");
    ReadsWhole(d, s);
    assert t[0] == opening[0] && "NULL"[0] == 'N' && "TRUE"[0] == 'T' && "FALSE"[0] == 'F';
  }

  /** A scalar is read back as what its literal shows of it. */
  lemma ScalarReadsBack(d: Dialect, printer: Printer, number: NumberReader, v: Json)
    requires NumbersReadBack(printer, number)
    ensures ReadScalar(d, number, ScalarLiteral(d, printer, v)) == Some(ShownScalar(d, printer, v))
  {
    match v
    case JNull =>
    case JString(s) => QuotedReads(d, number, s);
    case JArray(_) => QuotedReads(d, number, printer.marshal(v));
    case JObject(_) => QuotedReads(d, number, printer.marshal(v));
    case JNumber(n) => NumberReads(d, number, printer.number(n), n);
    case JBool(b) =>
      if d.ClickHouseSql? {
        NumberReads(d, number, if b then "1" else "0", if b then 1.0 else 0.0);
      }
  }

  lemma FirstScalar(d: Dialect, printer: Printer, vs: seq<Json>)
    requires vs != []
    ensures var parts := ScalarLiterals(d, printer, vs);
            && parts != [] && parts[0] == ScalarLiteral(d, printer, vs[0])
            && parts[1..] == ScalarLiterals(d, printer, vs[1..])
    ensures ShownScalars(d, printer, vs) == [ShownScalar(d, printer, vs[0])] + ShownScalars(d, printer, vs[1..])
  {
  }

  lemma ScalarThenMore(d: Dialect, number: NumberReader, parts: seq<string>, v: Json, vs: seq<Json>)
    requires parts != [] && ReadScalar(d, number, parts[0]) == Some(v)
    requires ReadScalars(d, number, parts[1..]) == Some(vs)
    ensures ReadScalars(d, number, parts) == Some([v] + vs)
  {
  }

  lemma {:induction false} ScalarsReadBack(d: Dialect, printer: Printer, number: NumberReader, vs: seq<Json>)
    requires NumbersReadBack(printer, number)
    ensures ReadScalars(d, number, ScalarLiterals(d, printer, vs)) == Some(ShownScalars(d, printer, vs))
    decreases |vs|
  {
    if vs == [] {
      assert ScalarLiterals(d, printer, vs) == [] && ShownScalars(d, printer, vs) == [];
    } else {
      FirstScalar(d, printer, vs);
      ScalarReadsBack(d, printer, number, vs[0]);
      ScalarsReadBack(d, printer, number, vs[1..]);
      ScalarThenMore(d, number, ScalarLiterals(d, printer, vs), ShownScalar(d, printer, vs[0]),
                     ShownScalars(d, printer, vs[1..]));
    }
  }

  lemma ItemsReadBack(parts: seq<string>, rest: string)
    requires AllSolid(ITEM_STOPS, parts)
    ensures ReadItems(Join(parts, ", ") + ("]" + rest)) == Some((parts, rest))
  {
    ExpectReads("]", rest);
    if parts == [] {
      assert Join(parts, ", ") + ("]" + rest) == "]" + rest;
    } else {
      assert Solid(ITEM_STOPS, parts[0]);
      assert parts[0][0] != ']' && (Join(parts, ", ") + ("]" + rest))[0] == parts[0][0];
      ListReadsBack(ITEM_STOPS, parts, "]" + rest);
    }
  }

  lemma ItemsAreSolid(d: Dialect, printer: Printer, items: seq<Json>)
    requires SolidPrinter(printer)
    ensures AllSolid(ITEM_STOPS, ScalarLiterals(d, printer, items))
  {
    forall i | 0 <= i < |items| ensures Solid(ITEM_STOPS, ScalarLiterals(d, printer, items)[i]) {
      ScalarIsWhole(ITEM_STOPS, 0, d, printer, items[i]);
    }
  }

  lemma ArraySteps(d: Dialect, number: NumberReader, t: string, list: string, parts: seq<string>, rest: string,
                   items: seq<Json>, elementType: string)
    requires Expect(t, if d.PostgresSql? then "ARRAY[" else "[") == Some(list)
    requires ReadItems(list) == Some((parts, rest)) && ReadScalars(d, number, parts) == Some(items)
    requires ReadElementType(d, rest) == Some(elementType)
    ensures ReadLiteral(d, number, t) == Some(Array(items, elementType))
  {
  }

  lemma ElementTypeReads(name: string)
    ensures ReadElementType(PostgresSql, "::" + (name + "[]")) == Some(name)
  {
    ExpectReads("::", name + "[]");
    var t := name + "[]";
    assert t[|t| - 2..] == "[]" && t[..|t| - 2] == name;
  }

  lemma PostgresArrayReads(number: NumberReader, parts: seq<string>, items: seq<Json>, name: string)
    requires AllSolid(ITEM_STOPS, parts) && ReadScalars(PostgresSql, number, parts) == Some(items)
    ensures ReadLiteral(PostgresSql, number, "ARRAY[" + Join(parts, ", ") + "]::" + name + "[]") ==
            Some(Array(items, name))
  {
    var rest := "::" + (name + "[]");
    var list := Join(parts, ", ") + ("]" + rest);
    assert "ARRAY[" + Join(parts, ", ") + "]::" + name + "[]" == "ARRAY[" + list;
    ExpectReads("ARRAY[", list);
    ItemsReadBack(parts, rest);
    ElementTypeReads(name);
    ArraySteps(PostgresSql, number, "ARRAY[" + list, list, parts, rest, items, name);
  }

  lemma ClickHouseArrayReads(number: NumberReader, parts: seq<string>, items: seq<Json>)
    requires AllSolid(ITEM_STOPS, parts) && ReadScalars(ClickHouseSql, number, parts) == Some(items)
    ensures ReadLiteral(ClickHouseSql, number, "[" + Join(parts, ", ") + "]") == Some(Array(items, ""))
  {
    var list := Join(parts, ", ") + ("]" + "");
    assert "[" + Join(parts, ", ") + "]" == "[" + list;
    ExpectReads("[", list);
    ItemsReadBack(parts, "");
    ArraySteps(ClickHouseSql, number, "[" + list, list, parts, "", items, "");
  }

  lemma ArrayReadsBack(d: Dialect, printer: Printer, number: NumberReader, items: seq<Json>, elementType: string)
    requires NumbersReadBack(printer, number) && SolidPrinter(printer)
    ensures ReadLiteral(d, number, SQLLiteral(d, printer, Array(items, elementType))) ==
            Some(ShownValue(d, printer, Array(items, elementType)))
  {
    var parts := ScalarLiterals(d, printer, items);
    ItemsAreSolid(d, printer, items);
    ScalarsReadBack(d, printer, number, items);
    if d.PostgresSql? {
      PostgresArrayReads(number, parts, ShownScalars(d, printer, items), TrimArraySuffix(elementType));
    } else {
      ClickHouseArrayReads(number, parts, ShownScalars(d, printer, items));
    }
  }

  lemma ScalarIsNoArray(d: Dialect, printer: Printer, number: NumberReader, v: Json)
    requires NumbersReadBack(printer, number)
    ensures Expect(ScalarLiteral(d, printer, v), if d.PostgresSql? then "ARRAY[" else "[") == None
  {
    var t := ScalarLiteral(d, printer, v);
    assert v.JNumber? ==> LooksLikeNumber(printer.number(v.number));
    assert t[0] != 'A' && t[0] != '[';
  }

  /** Every literal is read back as what it shows of the value: strings, numbers, booleans on
      Postgres, nulls, and the items and element type of an array. */
  lemma LiteralReadsBack(d: Dialect, printer: Printer, number: NumberReader, v: Value)
    requires NumbersReadBack(printer, number) && SolidPrinter(printer)
    ensures ReadLiteral(d, number, SQLLiteral(d, printer, v)) == Some(ShownValue(d, printer, v))
  {
    match v
    case Scalar(json) =>
      ScalarReadsBack(d, printer, number, json);
      ScalarIsNoArray(d, printer, number, json);
    case Array(items, elementType) => ArrayReadsBack(d, printer, number, items, elementType);
  }

  /** So on Postgres two scalars that are no lists or objects print alike only when they are equal. */
  lemma PostgresScalarsTell(printer: Printer, number: NumberReader, v: Json, w: Json)
    requires NumbersReadBack(printer, number)
    requires !v.JArray? && !v.JObject? && !w.JArray? && !w.JObject?
    ensures ScalarLiteral(PostgresSql, printer, v) == ScalarLiteral(PostgresSql, printer, w) <==> v == w
  {
    ScalarReadsBack(PostgresSql, printer, number, v);
    ScalarReadsBack(PostgresSql, printer, number, w);
  }
}
