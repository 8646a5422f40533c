/** What the types of a plan become on ClickHouse. */
module ClickHouseTypes {
  import opened Common
  import opened Plans
  import opened ClickHouseText

  lemma {:induction false} TrimLeftTwice(s: string)
    ensures TrimLeft(TrimLeft(s)) == TrimLeft(s)
    decreases |s|
  {
    if s != "" && IsSpace(s[0]) {
      TrimLeftTwice(s[1..]);
    }
  }

  lemma {:induction false} TrimLeftKeepsUpper(s: string)
    requires ToUpper(s) == s
    ensures ToUpper(TrimLeft(s)) == TrimLeft(s)
    decreases |s|
  {
    if s != "" && IsSpace(s[0]) {
      assert forall i :: 0 <= i < |s[1..]| ==> ToUpper(s)[i + 1] == s[1..][i];
      assert ToUpper(s[1..]) == s[1..];
      TrimLeftKeepsUpper(s[1..]);
    }
  }

  lemma {:induction false} TrimLeftOfArray(s: string)
    ensures TrimLeft(s + "[]") == TrimLeft(s) + "[]"
    decreases |s|
  {
    if s == "" {
      assert s + "[]" == "[]";
    } else {
      assert (s + "[]")[0] == s[0] && (s + "[]")[1..] == s[1..] + "[]";
      if IsSpace(s[0]) {
        TrimLeftOfArray(s[1..]);
      }
    }
  }

  lemma UpperTwice(s: string)
    ensures ToUpper(ToUpper(s)) == ToUpper(s)
    ensures ToUpper(s + "[]") == ToUpper(s) + "[]"
  {
  }

  /** Two texts are one but for the case of their letters when they are in lower case, and exactly then when
      they are in upper case. */
  lemma CaseFolds(s: string, t: string)
    ensures ToLower(ToUpper(s)) == ToLower(s) && ToUpper(ToLower(s)) == ToUpper(s)
    ensures ToLower(s) == ToLower(t) <==> ToUpper(s) == ToUpper(t)
  {
    assert ToLower(ToUpper(s)) == ToLower(s) && ToUpper(ToLower(s)) == ToUpper(s);
    assert ToLower(ToUpper(t)) == ToLower(t) && ToUpper(ToLower(t)) == ToUpper(t);
  }

  lemma CleanArray(t: string)
    ensures TrimSpace(ToUpper(t + "[]")) == TrimLeft(ToUpper(t)) + "[]"
  {
    UpperTwice(t);
    TrimLeftOfArray(ToUpper(t));
    var clean := TrimLeft(ToUpper(t)) + "[]";
    assert clean[|clean| - 1] == ']' && !IsSpace(']') && TrimRight(clean) == clean;
  }

  lemma CleanElement(t: string)
    ensures TrimSpace(ToUpper(TrimLeft(ToUpper(t)))) == TrimSpace(ToUpper(t))
  {
    UpperTwice(t);
    TrimLeftKeepsUpper(ToUpper(t));
    TrimLeftTwice(ToUpper(t));
  }

  lemma SameTranslation(s: string, t: string)
    requires TrimSpace(ToUpper(s)) == TrimSpace(ToUpper(t))
    ensures TranslateType(s) == TranslateType(t)
  {
  }

  lemma ArrayOf(s: string, element: string)
    requires TrimSpace(ToUpper(s)) == element + "[]"
    ensures TranslateType(s) == "Array(" + TranslateType(element) + ")"
  {
    var clean := element + "[]";
    assert clean[|clean| - 2..] == "[]" && clean[..|clean| - 2] == element;
  }

  /** The element type of an array, translated, in `Array(...)`. */
  lemma ArraysTranslate(t: string)
    ensures TranslateType(t + "[]") == "Array(" + TranslateType(t) + ")"
  {
    CleanArray(t);
    ArrayOf(t + "[]", TrimLeft(ToUpper(t)));
    CleanElement(t);
    SameTranslation(TrimLeft(ToUpper(t)), t);
  }

  /** The case of a type does not matter. */
  lemma TypesIgnoreCase(s: string, t: string)
    requires ToLower(s) == ToLower(t)
    ensures TranslateType(s) == TranslateType(t)
  {
    assert |s| == |ToLower(s)| == |ToLower(t)| == |t|;
    forall i | 0 <= i < |s| ensures ToUpper(s)[i] == ToUpper(t)[i] {
      assert ToLower(s)[i] == ToLower(t)[i];
    }
    assert ToUpper(s) == ToUpper(t);
  }

  predicate EndsInBracket(s: string) {
    s != "" && s[|s| - 1] == ']'
  }

  /** Five types have a counterpart whatever their case and the white space around them; every other
      one that is no array becomes a string. */
  lemma ScalarsTranslate(t: string)
    ensures var clean := TrimSpace(ToUpper(t));
            && (clean == "INTEGER" ==> TranslateType(t) == "Int32")
            && (clean == "BIGINT" ==> TranslateType(t) == "Int64")
            && (clean == "REAL" ==> TranslateType(t) == "Float32")
            && (clean == "DOUBLE PRECISION" ==> TranslateType(t) == "Float64")
            && (clean == "BOOLEAN" ==> TranslateType(t) == "Bool")
            && (clean !in {"INTEGER", "BIGINT", "REAL", "DOUBLE PRECISION", "BOOLEAN"} && !EndsInBracket(clean) ==>
                  TranslateType(t) == "String")
  {
  }

  /** The type names an array. */
  predicate IsArrayType(t: string) {
    var clean := TrimSpace(ToUpper(t));
    |clean| >= 2 && clean[|clean| - 2..] == "[]"
  }

  lemma ScalarIsNoArray(clean: string)
    ensures !("Array(" <= ScalarType(clean))
  {
    assert "Array("[0] == 'A';
  }

  /** A column is nullable on ClickHouse exactly when it may be null, is no key column and is no
      array. */
  lemma NullableColumns(c: Column)
    ensures ColumnType(c) ==
            if c.nullable && !c.primaryKey && !IsArrayType(c.sqlType) then "Nullable(" + TranslateType(c.sqlType) + ")"
            else TranslateType(c.sqlType)
  {
    var clean := TrimSpace(ToUpper(c.sqlType));
    if IsArrayType(c.sqlType) {
      assert clean == clean[..|clean| - 2] + "[]";
      ArrayOf(c.sqlType, clean[..|clean| - 2]);
      assert "Array(" <= TranslateType(c.sqlType);
    } else {
      ScalarIsNoArray(clean);
    }
  }
}
