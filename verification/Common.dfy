/** Values shared by every part of the model: optional results, decoded JSON, and the byte
    order of strings that Go's `<` and `sort.Strings` use. */
module Common {

  datatype Option<+T> = None | Some(value: T)

  /** A Go `(value, error)` pair; error texts are not modelled. */
  datatype Result<+T> = Ok(value: T) | Failed

  datatype Json =
    | JNull
    | JBool(flag: bool)
    | JNumber(number: real)
    | JString(text: string)
    | JArray(items: seq<Json>)
    | JObject(fields: map<string, Json>)

  /** The value at a path of object keys; `JNull` stands for Go's nil, which is also the answer
      when a step is missing. */
  function ResolveByPath(root: Json, path: seq<string>): Json
    decreases |path|
  {
    if path == [] then root
    else if root.JObject? && path[0] in root.fields then ResolveByPath(root.fields[path[0]], path[1..])
    else JNull
  }

  /** Replaces the value at a path whose parent is an object; fails otherwise. */
  function SetAtPath(root: Json, path: seq<string>, value: Json): Result<Json>
    decreases |path|
  {
    if path == [] || !root.JObject? then Failed
    else if |path| == 1 then Ok(JObject(root.fields[path[0] := value]))
    else if path[0] !in root.fields then Failed
    else
      match SetAtPath(root.fields[path[0]], path[1..], value)
      case Failed => Failed
      case Ok(child) => Ok(JObject(root.fields[path[0] := child]))
  }

  lemma {:induction false} SetThenResolve(root: Json, path: seq<string>, value: Json)
    requires SetAtPath(root, path, value).Ok?
    ensures ResolveByPath(SetAtPath(root, path, value).value, path) == value
    decreases |path|
  {
    if |path| == 1 {
      assert path[1..] == [];
    } else {
      SetThenResolve(root.fields[path[0]], path[1..], value);
    }
  }

  /** Whether the parent of a path is an object does not depend on the value written. */
  lemma {:induction false} SetSucceedsForAnyValue(root: Json, path: seq<string>, v: Json, w: Json)
    ensures SetAtPath(root, path, v).Ok? == SetAtPath(root, path, w).Ok?
    decreases |path|
  {
    if path != [] && root.JObject? && |path| > 1 && path[0] in root.fields {
      SetSucceedsForAnyValue(root.fields[path[0]], path[1..], v, w);
    }
  }

  /** The two paths part at some step. */
  predicate Apart(p: seq<string>, q: seq<string>) {
    exists k :: 0 <= k < |p| && k < |q| && p[..k] == q[..k] && p[k] != q[k]
  }

  /** Writing at a path changes nothing elsewhere. */
  lemma {:induction false} SetKeepsOthers(root: Json, path: seq<string>, value: Json, other: seq<string>)
    requires SetAtPath(root, path, value).Ok? && Apart(path, other)
    ensures ResolveByPath(SetAtPath(root, path, value).value, other) == ResolveByPath(root, other)
    decreases |path|
  {
    var k :| 0 <= k < |path| && k < |other| && path[..k] == other[..k] && path[k] != other[k];
    if k > 0 {
      assert path[0] == path[..k][0] == other[..k][0] == other[0];
      assert path[1..][..k - 1] == path[..k][1..] && other[1..][..k - 1] == other[..k][1..];
      SetKeepsOthers(root.fields[path[0]], path[1..], value, other[1..]);
    }
  }

  // ---- strings in byte order (the order of Unicode code points) ----

  function CompareStrings(a: string, b: string): int {
    if a == [] then (if b == [] then 0 else -1)
    else if b == [] then 1
    else if a[0] < b[0] then -1
    else if a[0] > b[0] then 1
    else CompareStrings(a[1..], b[1..])
  }

  lemma {:induction false} CompareStringsOrders(a: string, b: string)
    ensures CompareStrings(a, b) == -CompareStrings(b, a)
    ensures CompareStrings(a, b) == 0 <==> a == b
    ensures -1 <= CompareStrings(a, b) <= 1
    decreases |a|
  {
    if a != [] && b != [] && a[0] == b[0] {
      CompareStringsOrders(a[1..], b[1..]);
      assert a == [a[0]] + a[1..] && b == [b[0]] + b[1..];
    }
  }

  lemma {:induction false} CompareStringsTransitive(a: string, b: string, c: string)
    requires CompareStrings(a, b) <= 0 && CompareStrings(b, c) <= 0
    ensures CompareStrings(a, c) <= 0
    decreases |a|
  {
    if a != [] && b != [] && c != [] && a[0] == b[0] == c[0] {
      CompareStringsTransitive(a[1..], b[1..], c[1..]);
    }
  }

  /** `a` comes before `b` in a dictionary: it is a proper prefix, or smaller where they part. */
  ghost predicate Before(a: string, b: string) {
    exists k :: 0 <= k <= |a| && PartsAt(a, b, k)
  }

  predicate PartsAt(a: string, b: string, k: nat)
    requires k <= |a|
  {
    k < |b| && a[..k] == b[..k] && (k == |a| || a[k] < b[k])
  }

  /** The comparison is negative exactly when the first text comes first in the dictionary. */
  lemma {:induction false} NegativeIsBefore(a: string, b: string)
    ensures CompareStrings(a, b) < 0 <==> Before(a, b)
    decreases |a|
  {
    if a == [] {
      assert b != [] ==> PartsAt(a, b, 0);
    } else if b != [] && a[0] == b[0] {
      NegativeIsBefore(a[1..], b[1..]);
      if Before(a[1..], b[1..]) {
        var k :| 0 <= k <= |a[1..]| && PartsAt(a[1..], b[1..], k);
        assert a[..k + 1] == [a[0]] + a[1..][..k] && b[..k + 1] == [b[0]] + b[1..][..k];
        assert PartsAt(a, b, k + 1);
      }
      if Before(a, b) {
        var k :| 0 <= k <= |a| && PartsAt(a, b, k);
        assert k > 0 && a[1..][..k - 1] == a[..k][1..] && b[1..][..k - 1] == b[..k][1..];
        assert PartsAt(a[1..], b[1..], k - 1);
      }
    } else if b != [] {
      assert a[0] < b[0] ==> PartsAt(a, b, 0);
    }
  }

  predicate StringLeq(a: string, b: string) {
    CompareStrings(a, b) <= 0
  }

  predicate SortedStrings(s: seq<string>) {
    forall i, j :: 0 <= i < j < |s| ==> s[i] != s[j] && StringLeq(s[i], s[j])
  }

  predicate IsLeast(keys: set<string>, least: string) {
    least in keys && forall k :: k in keys ==> StringLeq(least, k)
  }

  lemma {:induction false} LeastExists(keys: set<string>)
    requires keys != {}
    ensures exists least :: IsLeast(keys, least)
    decreases |keys|
  {
    var pick :| pick in keys;
    CompareStringsOrders(pick, pick);
    if keys == {pick} {
      assert IsLeast(keys, pick);
    } else {
      LeastExists(keys - {pick});
      var rest :| IsLeast(keys - {pick}, rest);
      CompareStringsOrders(pick, rest);
      forall k | k in keys - {pick} && StringLeq(pick, rest) ensures StringLeq(pick, k) {
        CompareStringsTransitive(pick, rest, k);
      }
      assert IsLeast(keys, if StringLeq(pick, rest) then pick else rest);
    }
  }

  lemma LeastIsUnique(keys: set<string>)
    ensures forall a, b :: IsLeast(keys, a) && IsLeast(keys, b) ==> a == b
  {
    forall a, b | IsLeast(keys, a) && IsLeast(keys, b) ensures a == b {
      CompareStringsOrders(a, b);
    }
  }

  function LeastOf(keys: set<string>): (least: string)
    requires keys != {}
    ensures IsLeast(keys, least)
  {
    LeastExists(keys);
    LeastIsUnique(keys);
    var least :| IsLeast(keys, least);
    least
  }

  /** `sort.Strings` applied to the keys of a map: each key once, in byte order. */
  function SortedKeys(keys: set<string>): (r: seq<string>)
    ensures SortedStrings(r) && |r| == |keys|
    ensures forall k :: k in r <==> k in keys
    decreases |keys|
  {
    if keys == {} then []
    else
      var least := LeastOf(keys);
      var rest := SortedKeys(keys - {least});
      assert forall j :: 0 <= j < |rest| ==> rest[j] in keys - {least};
      [least] + rest
  }

  /** Two texts cut at their first bar. */
  lemma CutAtFirstBar(a: string, x: string, b: string, y: string)
    requires '|' !in a && '|' !in b && a + x == b + y
    requires x == "" || x[0] == '|'
    requires y == "" || y[0] == '|'
    ensures a == b && x == y
  {
    var whole := a + x;
    assert whole[..|a|] == a && whole[|a|..] == x && whole[..|b|] == b && whole[|b|..] == y;
  }

  // ---- white space and letter case ----

  /** The runes `unicode.IsSpace` accepts. */
  predicate IsSpace(c: char) {
    var n := c as int;
    9 <= n <= 13 || n == 32 || n == 0x85 || n == 0xA0 || n == 0x1680 || 0x2000 <= n <= 0x200a ||
    n == 0x2028 || n == 0x2029 || n == 0x202f || n == 0x205f || n == 0x3000
  }

  function TrimLeft(s: string): string {
    if s != [] && IsSpace(s[0]) then TrimLeft(s[1..]) else s
  }

  function TrimRight(s: string): string {
    if s != [] && IsSpace(s[|s| - 1]) then TrimRight(s[..|s| - 1]) else s
  }

  function TrimSpace(s: string): string {
    TrimRight(TrimLeft(s))
  }

  predicate AllSpace(s: string) {
    forall i :: 0 <= i < |s| ==> IsSpace(s[i])
  }

  lemma {:induction false} TrimLeftCuts(s: string) returns (front: string)
    ensures s == front + TrimLeft(s) && AllSpace(front)
    ensures TrimLeft(s) != [] ==> !IsSpace(TrimLeft(s)[0])
    decreases |s|
  {
    if s != [] && IsSpace(s[0]) {
      var rest := TrimLeftCuts(s[1..]);
      front := [s[0]] + rest;
      assert s == [s[0]] + s[1..];
    } else {
      front := [];
    }
  }

  lemma {:induction false} TrimRightCuts(s: string) returns (back: string)
    ensures s == TrimRight(s) + back && AllSpace(back)
    ensures TrimRight(s) != [] ==> !IsSpace(TrimRight(s)[|TrimRight(s)| - 1]) && TrimRight(s)[0] == s[0]
    decreases |s|
  {
    if s != [] && IsSpace(s[|s| - 1]) {
      var rest := TrimRightCuts(s[..|s| - 1]);
      back := rest + [s[|s| - 1]];
      assert s == s[..|s| - 1] + [s[|s| - 1]];
    } else {
      back := [];
    }
  }

  /** Trimming takes white space off both ends, and all of it. */
  lemma TrimSpaceCuts(s: string) returns (front: string, back: string)
    ensures s == front + TrimSpace(s) + back && AllSpace(front) && AllSpace(back)
    ensures var t := TrimSpace(s); t != [] ==> !IsSpace(t[0]) && !IsSpace(t[|t| - 1])
  {
    front := TrimLeftCuts(s);
    back := TrimRightCuts(TrimLeft(s));
  }

  lemma TrimSpaceBlank(s: string)
    ensures TrimSpace(s) == "" <==> AllSpace(s)
  {
    var front, back := TrimSpaceCuts(s);
    if TrimSpace(s) != "" {
      assert s[|front|] == TrimSpace(s)[0];
    } else {
      assert s == front + back;
    }
  }

  /** `strings.ToLower` on ASCII letters. */
  function ToLower(s: string): string {
    seq(|s|, i requires 0 <= i < |s| => if 'A' <= s[i] <= 'Z' then (s[i] as int + 32) as char else s[i])
  }
}
