/** The parameter values an operation is called with, and their combinations. */
module Params {
  import opened Common
  import opened Values

  datatype ParamFilter = ParamFilter(op: string, value: Json, values: seq<Json>)

  /** `FromOperation` takes values other operations published, `Fixed` lists them; any other type is
      an error. */
  datatype ParamSource = FromOperation(operationId: string,
                                       filter: Option<ParamFilter>) | Fixed(values: seq<Json>) | Unsupported

  datatype ParamSpec = ParamSpec(name: string, source: ParamSource)

  /** `format` is `%v`, `matches` decides a filter, `marshal` is `json.Marshal` of sorted parameters. */
  datatype Library = Library(format: Json -> string, matches: (ParamFilter, Json) -> Result<bool>,
                             marshal: map<string, string> -> string)

  type Published = map<string, seq<Json>>

  // ---- acceptable values of one parameter ----

  function Filtered(lib: Library, values: seq<Json>, filter: ParamFilter): Result<seq<Json>> {
    if values == [] then Ok([])
    else
      match Filtered(lib, values[..|values| - 1], filter)
      case Failed => Failed
      case Ok(front) =>
        match lib.matches(filter, values[|values| - 1])
        case Failed => Failed
        case Ok(accepted) => Ok(if accepted then front + [values[|values| - 1]] else front)
  }

  /** None when the operation has published nothing yet. */
  function EffectiveValues(lib: Library, spec: ParamSpec, published: Published): Result<Option<seq<Json>>> {
    match spec.source
    case FromOperation(id, filter) =>
      if id !in published then Ok(None)
      else if filter.None? then Ok(Some(Unique(lib.format, published[id])))
      else (
        match Filtered(lib, Unique(lib.format, published[id]), filter.value)
        case Failed => Failed
        case Ok(values) => Ok(Some(values)))
    case Fixed(values) => Ok(Some(Unique(lib.format, values)))
    case Unsupported => Failed
  }

  method ApplyParamFilter(lib: Library, values: seq<Json>, filter: ParamFilter) returns (r: Result<seq<Json>>)
    ensures r == Filtered(lib, values, filter)
  {
    var kept: seq<Json> := [];
    for i := 0 to |values|
      invariant Filtered(lib, values[..i], filter) == Ok(kept)
    {
      assert values[..i + 1][..i] == values[..i];
      FilterFails(lib, values, filter, i + 1);
      var accepted := lib.matches(filter, values[i]);
      if accepted.Failed? {
        return Failed;
      }
      if accepted.value {
        kept := kept + [values[i]];
      }
    }
    assert values[..|values|] == values;
    return Ok(kept);
  }

  lemma {:induction false} FilterFails(lib: Library, values: seq<Json>, filter: ParamFilter, n: nat)
    requires n <= |values|
    ensures Filtered(lib, values[..n], filter).Failed? ==> Filtered(lib, values, filter).Failed?
    decreases |values| - n
  {
    if n == |values| {
      assert values[..n] == values;
    } else {
      assert values[..n + 1][..n] == values[..n];
      FilterFails(lib, values, filter, n + 1);
    }
  }

  method BuildEffectiveParamValues(lib: Library, spec: ParamSpec, published: Published)
    returns (r: Result<Option<seq<Json>>>)
    ensures r == EffectiveValues(lib, spec, published)
  {
    match spec.source
    case FromOperation(id, filter) =>
      if id !in published {
        return Ok(None);
      }
      var values := UniqueValues(lib.format, published[id]);
      if filter.Some? {
        var filtered := ApplyParamFilter(lib, values, filter.value);
        if filtered.Failed? {
          return Failed;
        }
        values := filtered.value;
      }
      return Ok(Some(values));
    case Fixed(values) =>
      var unique := UniqueValues(lib.format, values);
      return Ok(Some(unique));
    case Unsupported =>
      return Failed;
  }

  lemma {:induction false} FilteredKeeps(lib: Library, values: seq<Json>, filter: ParamFilter)
    requires Filtered(lib, values, filter).Ok?
    ensures forall v :: v in Filtered(lib, values, filter).value ==> v in values && lib.matches(filter, v) == Ok(true)
    ensures forall v :: v in values && lib.matches(filter, v) == Ok(true) ==> v in Filtered(lib, values, filter).value
    decreases |values|
  {
    if values != [] {
      FilteredKeeps(lib, values[..|values| - 1], filter);
      assert values == values[..|values| - 1] + [values[|values| - 1]];
    }
  }

  lemma {:induction false} FilteredTexts(lib: Library, values: seq<Json>, filter: ParamFilter)
    requires Filtered(lib, values, filter).Ok? && DistinctTexts(lib.format, values)
    ensures DistinctTexts(lib.format, Filtered(lib, values, filter).value)
    decreases |values|
  {
    if values != [] {
      var front, last := values[..|values| - 1], values[|values| - 1];
      assert DistinctTexts(lib.format, front) by { assert forall i :: 0 <= i < |front| ==> front[i] == values[i]; }
      FilteredTexts(lib, front, filter);
      FilteredKeeps(lib, front, filter);
      if lib.matches(filter, last) == Ok(true) {
        var kept := Filtered(lib, front, filter).value;
        forall v | v in kept ensures lib.format(v) != lib.format(last) {
          var i :| 0 <= i < |front| && front[i] == v;
          assert values[i] == v;
        }
        OneMoreText(lib.format, kept, last);
      }
    }
  }

  /** The values offered to a parameter, each text once. */
  function Offered(lib: Library, spec: ParamSpec, published: Published): seq<Json> {
    match spec.source
    case FromOperation(id, _) => if id in published then Unique(lib.format, published[id]) else []
    case Fixed(values) => Unique(lib.format, values)
    case Unsupported => []
  }

  predicate Accepted(lib: Library, spec: ParamSpec, v: Json) {
    spec.source.FromOperation? && spec.source.filter.Some? ==> lib.matches(spec.source.filter.value, v) == Ok(true)
  }

  /** A parameter takes exactly the offered values its filter accepts, no text twice. */
  lemma EffectiveValuesAre(lib: Library, spec: ParamSpec, published: Published)
    requires EffectiveValues(lib, spec, published).Ok? && EffectiveValues(lib, spec, published).value.Some?
    ensures var values := EffectiveValues(lib, spec, published).value.value;
            && DistinctTexts(lib.format, values)
            && (forall v :: v in values <==> v in Offered(lib, spec, published) && Accepted(lib, spec, v))
  {
    match spec.source
    case FromOperation(id, filter) =>
      UniqueTexts(lib.format, published[id]);
      if filter.Some? {
        FilteredKeeps(lib, Unique(lib.format, published[id]), filter.value);
        FilteredTexts(lib, Unique(lib.format, published[id]), filter.value);
      }
    case Fixed(values) =>
      UniqueTexts(lib.format, values);
  }

  /** What a parameter draws from: what the other operation has published, or the fixed list. */
  function SourceValues(spec: ParamSpec, published: Published): seq<Json> {
    match spec.source
    case FromOperation(id, _) => if id in published then published[id] else []
    case Fixed(values) => values
    case Unsupported => []
  }

  /** The first value of its text, and accepted. */
  predicate Acceptable(lib: Library, spec: ParamSpec, published: Published, p: nat)
    requires p < |SourceValues(spec, published)|
  {
    FirstOfText(lib.format, SourceValues(spec, published), p) &&
    Accepted(lib, spec, SourceValues(spec, published)[p])
  }

  lemma OfferedAreFirsts(lib: Library, spec: ParamSpec, published: Published, v: Json)
    ensures v in Offered(lib, spec, published) <==>
            exists p: nat :: p < |SourceValues(spec, published)| && SourceValues(spec, published)[p] == v &&
                             FirstOfText(lib.format, SourceValues(spec, published), p)
  {
    var values := SourceValues(spec, published);
    var at := UniqueKeepsFirsts(lib.format, values);
    assert Offered(lib, spec, published) == Unique(lib.format, values);
    if v in Unique(lib.format, values) {
      var i :| 0 <= i < |at| && Unique(lib.format, values)[i] == v;
      assert values[at[i]] == v;
    }
    if p: nat :| p < |values| && values[p] == v && FirstOfText(lib.format, values, p) {
      var i :| 0 <= i < |at| && at[i] == p;
      assert Unique(lib.format, values)[i] == v;
    }
  }

  /** A parameter that is not in error takes exactly the values of its source that are the first of
      their text and that its filter accepts. */
  lemma EffectiveValuesMean(lib: Library, spec: ParamSpec, published: Published, v: Json)
    requires EffectiveValues(lib, spec, published).Ok?
    ensures var r := EffectiveValues(lib, spec, published).value;
            (r.Some? && v in r.value) <==>
              exists p: nat :: p < |SourceValues(spec, published)| && SourceValues(spec, published)[p] == v &&
                               Acceptable(lib, spec, published, p)
  {
    OfferedAreFirsts(lib, spec, published, v);
    if EffectiveValues(lib, spec, published).value.Some? {
      EffectiveValuesAre(lib, spec, published);
    }
  }

  // ---- all parameters of an operation ----

  predicate HasValues(r: Result<Option<seq<Json>>>) {
    r.Ok? && r.value.Some? && r.value.value != []
  }

  /** The lists of the first n parameters; none as soon as one has no value. */
  function EffectiveLists(lib: Library, specs: seq<ParamSpec>, published: Published,
                          n: nat): Result<Option<seq<seq<Json>>>>
    requires n <= |specs|
  {
    if n == 0 then Ok(Some([]))
    else
      match EffectiveLists(lib, specs, published, n - 1)
      case Failed => Failed
      case Ok(None) => Ok(None)
      case Ok(Some(lists)) =>
        var values := EffectiveValues(lib, specs[n - 1], published);
        if values.Failed? then Failed
        else if !HasValues(values) then Ok(None)
        else Ok(Some(lists + [values.value.value]))
  }

  lemma {:induction false} ListsStop(lib: Library, specs: seq<ParamSpec>, published: Published, n: nat)
    requires n <= |specs| &&
             (EffectiveLists(lib, specs, published, n).Ok? ==> EffectiveLists(lib, specs, published, n).value.None?)
    ensures EffectiveLists(lib, specs, published, |specs|) == EffectiveLists(lib, specs, published, n)
    decreases |specs| - n
  {
    if n < |specs| {
      ListsStop(lib, specs, published, n + 1);
    }
  }

  method BuildEffectiveParamValueLists(lib: Library, specs: seq<ParamSpec>, published: Published)
    returns (r: Result<Option<seq<seq<Json>>>>)
    ensures r == EffectiveLists(lib, specs, published, |specs|)
  {
    var lists: seq<seq<Json>> := [];
    for i := 0 to |specs|
      invariant EffectiveLists(lib, specs, published, i) == Ok(Some(lists))
    {
      var values := BuildEffectiveParamValues(lib, specs[i], published);
      if values.Failed? {
        ListsStop(lib, specs, published, i + 1);
        return Failed;
      }
      if values.value.None? || values.value.value == [] {
        ListsStop(lib, specs, published, i + 1);
        return Ok(None);
      }
      lists := lists + [values.value.value];
    }
    return Ok(Some(lists));
  }

  lemma {:induction false} ListsAre(lib: Library, specs: seq<ParamSpec>, published: Published, n: nat)
    requires n <= |specs| && EffectiveLists(lib, specs, published, n).Ok? &&
             EffectiveLists(lib, specs, published, n).value.Some?
    ensures var lists := EffectiveLists(lib, specs, published, n).value.value;
            && |lists| == n
            && forall i :: 0 <= i < n ==>
                 HasValues(EffectiveValues(lib, specs[i], published)) &&
                 lists[i] == EffectiveValues(lib, specs[i], published).value.value
    decreases n
  {
    if n > 0 {
      ListsAre(lib, specs, published, n - 1);
    }
  }

  /** A parameter with no acceptable value. */
  predicate Starved(lib: Library, spec: ParamSpec, published: Published) {
    EffectiveValues(lib, spec, published).Ok? && !HasValues(EffectiveValues(lib, spec, published))
  }

  /** A parameter that is not in error starves exactly when no value of its source that is the first
      of its text is accepted. */
  lemma StarvedMeans(lib: Library, spec: ParamSpec, published: Published)
    requires EffectiveValues(lib, spec, published).Ok?
    ensures Starved(lib, spec, published) <==>
            forall p: nat :: p < |SourceValues(spec, published)| ==> !Acceptable(lib, spec, published, p)
  {
    var r := EffectiveValues(lib, spec, published).value;
    if r.Some? && r.value != [] {
      EffectiveValuesMean(lib, spec, published, r.value[0]);
    }
    if p: nat :| p < |SourceValues(spec, published)| && Acceptable(lib, spec, published, p) {
      EffectiveValuesMean(lib, spec, published, SourceValues(spec, published)[p]);
    }
  }

  /** The type is supported and the filter can decide every value. */
  ghost predicate SoundParam(lib: Library, spec: ParamSpec) {
    && !spec.source.Unsupported?
    && (spec.source.FromOperation? && spec.source.filter.Some? ==>
          forall v :: lib.matches(spec.source.filter.value, v).Ok?)
  }

  lemma {:induction false} SoundFilter(lib: Library, values: seq<Json>, filter: ParamFilter)
    requires forall v :: lib.matches(filter, v).Ok?
    ensures Filtered(lib, values, filter).Ok?
    decreases |values|
  {
    if values != [] {
      SoundFilter(lib, values[..|values| - 1], filter);
    }
  }

  lemma {:induction false} SoundLists(lib: Library, specs: seq<ParamSpec>, published: Published, n: nat)
    requires n <= |specs| && forall i :: 0 <= i < n ==> SoundParam(lib, specs[i])
    ensures EffectiveLists(lib, specs, published, n).Ok?
    decreases n
  {
    if n > 0 {
      SoundLists(lib, specs, published, n - 1);
      assert SoundParam(lib, specs[n - 1]);
      match specs[n - 1].source
      case FromOperation(id, filter) =>
        if id in published && filter.Some? {
          SoundFilter(lib, Unique(lib.format, published[id]), filter.value);
        }
      case _ =>
    }
  }

  /** An operation is held back exactly by its first parameter that has no value, provided none
      before it is in error. */
  lemma {:induction false} NotReadyMeansStarved(lib: Library, specs: seq<ParamSpec>, published: Published, n: nat)
    requires n <= |specs|
    ensures EffectiveLists(lib, specs, published, n) == Ok(None) <==>
            exists i ::
              0 <= i < n && Starved(lib, specs[i], published) &&
              forall j :: 0 <= j < i ==> HasValues(EffectiveValues(lib, specs[j], published))
    decreases n
  {
    if n > 0 {
      NotReadyMeansStarved(lib, specs, published, n - 1);
      if EffectiveLists(lib, specs, published, n - 1).Ok? && EffectiveLists(lib, specs, published, n - 1).value.Some? {
        ListsAre(lib, specs, published, n - 1);
      } else if EffectiveLists(lib, specs, published, n - 1).Failed? {
        ListsFail(lib, specs, published, n - 1);
      }
    }
  }

  lemma {:induction false} ListsFail(lib: Library, specs: seq<ParamSpec>, published: Published, n: nat)
    requires n <= |specs| && EffectiveLists(lib, specs, published, n).Failed?
    ensures exists i ::
              0 <= i < n && EffectiveValues(lib, specs[i], published).Failed? &&
              forall j :: 0 <= j < i ==> HasValues(EffectiveValues(lib, specs[j], published))
    decreases n
  {
    if EffectiveLists(lib, specs, published, n - 1).Failed? {
      ListsFail(lib, specs, published, n - 1);
    } else {
      ListsAre(lib, specs, published, n - 1);
    }
  }

  // ---- combinations ----

  function Extended(combos: seq<seq<Json>>, values: seq<Json>): seq<seq<Json>> {
    if combos == [] then [] else Extended(combos[..|combos| - 1], values) + WithEach(combos[|combos| - 1], values)
  }

  function WithEach(combo: seq<Json>, values: seq<Json>): seq<seq<Json>> {
    seq(|values|, i requires 0 <= i < |values| => combo + [values[i]])
  }

  function Product(lists: seq<seq<Json>>): seq<seq<Json>> {
    if lists == [] then [[]] else Extended(Product(lists[..|lists| - 1]), lists[|lists| - 1])
  }

  /** Nothing for no lists, as in the source; the caller treats an operation without parameters
      itself. */
  method GenerateCombinations(lists: seq<seq<Json>>) returns (r: seq<seq<Json>>)
    ensures r == if lists == [] then [] else Product(lists)
  {
    if lists == [] {
      return [];
    }
    r := [];
    for i := 0 to |lists[0]|
      invariant r == WithEach([], lists[0])[..i]
    {
      assert WithEach([], lists[0])[i] == [lists[0][i]];
      r := r + [[lists[0][i]]];
    }
    FirstListAlone(lists);
    for i := 1 to |lists|
      invariant r == Product(lists[..i])
    {
      assert lists[..i + 1][..i] == lists[..i];
      var next: seq<seq<Json>> := [];
      for j := 0 to |r|
        invariant next == Extended(r[..j], lists[i])
      {
        assert r[..j + 1][..j] == r[..j];
        ghost var before := next;
        for k := 0 to |lists[i]|
          invariant next == before + WithEach(r[j], lists[i])[..k]
        {
          next := next + [r[j] + [lists[i][k]]];
        }
      }
      assert r[..|r|] == r;
      r := next;
    }
    assert lists[..|lists|] == lists;
  }

  lemma FirstListAlone(lists: seq<seq<Json>>)
    requires lists != []
    ensures Product(lists[..1]) == WithEach([], lists[0])
  {
    assert lists[..1][..0] == [];
    var one: seq<seq<Json>> := [[]];
    assert one[..0] == [];
    assert Extended(one, lists[0]) == WithEach([], lists[0]);
  }

  predicate PicksOneOfEach(combo: seq<Json>, lists: seq<seq<Json>>) {
    |combo| == |lists| && forall i :: 0 <= i < |lists| ==> combo[i] in lists[i]
  }

  lemma {:induction false} ExtendedHolds(combos: seq<seq<Json>>, values: seq<Json>, combo: seq<Json>)
    ensures combo in Extended(combos, values) <==>
              combo != [] && combo[..|combo| - 1] in combos && combo[|combo| - 1] in values
    decreases |combos|
  {
    if combos != [] {
      var front, last := combos[..|combos| - 1], combos[|combos| - 1];
      ExtendedHolds(front, values, combo);
      assert combos == front + [last];
      if combo in WithEach(last, values) {
        var i :| 0 <= i < |values| && WithEach(last, values)[i] == combo;
        assert combo[..|combo| - 1] == last;
      }
      if combo != [] && combo[..|combo| - 1] == last && combo[|combo| - 1] in values {
        var i :| 0 <= i < |values| && values[i] == combo[|combo| - 1];
        assert WithEach(last, values)[i] == combo;
      }
    }
  }

  /** The combinations are exactly the cartesian product. */
  lemma {:induction false} ProductHolds(lists: seq<seq<Json>>, combo: seq<Json>)
    ensures combo in Product(lists) <==> PicksOneOfEach(combo, lists)
    decreases |lists|
  {
    if lists != [] {
      var front, last := lists[..|lists| - 1], lists[|lists| - 1];
      ExtendedHolds(Product(front), last, combo);
      if combo != [] {
        ProductHolds(front, combo[..|combo| - 1]);
        if PicksOneOfEach(combo, lists) {
          assert forall i :: 0 <= i < |front| ==> front[i] == lists[i];
        }
      }
    }
  }

  function Size(lists: seq<seq<Json>>): nat {
    if lists == [] then 1 else Size(lists[..|lists| - 1]) * |lists[|lists| - 1]|
  }

  lemma {:induction false} ExtendedSize(combos: seq<seq<Json>>, values: seq<Json>)
    ensures |Extended(combos, values)| == |combos| * |values|
    decreases |combos|
  {
    if combos != [] {
      ExtendedSize(combos[..|combos| - 1], values);
      assert (|combos| - 1) * |values| + |values| == |combos| * |values|;
    }
  }

  lemma {:induction false} ProductSize(lists: seq<seq<Json>>)
    ensures |Product(lists)| == Size(lists)
    decreases |lists|
  {
    if lists != [] {
      ProductSize(lists[..|lists| - 1]);
      ExtendedSize(Product(lists[..|lists| - 1]), lists[|lists| - 1]);
    }
  }

  lemma AtLeastOnce(d: int, k: int)
    requires d > 0 && k >= 1
    ensures d * k >= d
  {
  }

  lemma QuotientIs(x: int, d: int, a: int, b: int)
    requires d > 0 && x == d * a + b && 0 <= b < d
    ensures x / d == a && x % d == b
  {
    var q := x / d;
    assert d * (a - q) == x % d - b;
    if a - q >= 1 {
      AtLeastOnce(d, a - q);
    } else if q - a >= 1 {
      AtLeastOnce(d, q - a);
    }
  }

  lemma SplitIndex(i: nat, m: nat)
    requires m > 0
    ensures i / m * m + i % m == i && i % m < m
  {
  }

  lemma MoreTimes(n: nat, q: nat, m: nat)
    requires n <= q
    ensures n * m <= q * m
  {
  }

  lemma Regroup(m: nat, n: nat, a: nat, b: nat, r: nat)
    ensures (a * n + b) * m + r == (n * m) * a + (b * m + r)
  {
    assert (a * n + b) * m == (a * n) * m + b * m;
  }

  lemma RestIsSmall(m: nat, n: nat, b: nat, r: nat)
    requires b < n && r < m
    ensures n * m > 0 && b * m + r < n * m
  {
    MoreTimes(b + 1, n, m);
  }

  lemma DivideTwice(x: nat, m: nat, n: nat)
    requires m > 0 && n > 0
    ensures n * m > 0 && x / m / n == x / (n * m)
  {
    var q, r := x / m, x % m;
    var a, b := q / n, q % n;
    SplitIndex(x, m);
    SplitIndex(q, n);
    Regroup(m, n, a, b, r);
    RestIsSmall(m, n, b, r);
    QuotientIs(x, n * m, a, b * m + r);
  }

  lemma {:induction false} ExtendedAt(combos: seq<seq<Json>>, values: seq<Json>, q: nat, r: nat)
    requires q < |combos| && r < |values|
    ensures q * |values| + r < |Extended(combos, values)|
    ensures Extended(combos, values)[q * |values| + r] == combos[q] + [values[r]]
    decreases |combos|
  {
    var front := combos[..|combos| - 1];
    ExtendedSize(front, values);
    ExtendedSize(combos, values);
    if q == |front| {
    } else {
      ExtendedAt(front, values, q, r);
    }
  }

  lemma SizeOfTail(lists: seq<seq<Json>>, k: nat)
    requires k < |lists|
    ensures Size(lists[k..]) == Size(lists[k..|lists| - 1]) * |lists[|lists| - 1]|
  {
    assert lists[k..][..|lists[k..]| - 1] == lists[k..|lists| - 1];
  }

  lemma {:induction false} SizePositive(lists: seq<seq<Json>>)
    requires forall i :: 0 <= i < |lists| ==> lists[i] != []
    ensures Size(lists) > 0
    decreases |lists|
  {
    if lists != [] {
      SizePositive(lists[..|lists| - 1]);
      AtLeastOnce(|lists[|lists| - 1]|, Size(lists[..|lists| - 1]));
    }
  }

  lemma FewerTimes(q: nat, m: nat, n: nat, r: nat)
    requires q * m + r < n * m
    ensures q < n
  {
    if q >= n {
      MoreTimes(n, q, m);
    }
  }

  lemma ExtendedSplit(combos: seq<seq<Json>>, values: seq<Json>, i: nat, q: nat, r: nat)
    requires i < |Extended(combos, values)| && i == q * |values| + r && r < |values|
    ensures q < |combos|
    ensures Extended(combos, values)[i] == combos[q] + [values[r]]
  {
    ExtendedSize(combos, values);
    FewerTimes(q, |values|, |combos|, r);
    ExtendedAt(combos, values, q, r);
  }

  /** The combinations come in the order of an odometer: the last list turns fastest. */
  lemma {:induction false} ProductTurns(lists: seq<seq<Json>>, i: nat, k: nat)
    requires i < |Product(lists)| && k < |lists| && forall j :: 0 <= j < |lists| ==> lists[j] != []
    ensures Size(lists[k + 1..]) > 0 && |Product(lists)[i]| == |lists|
    ensures Product(lists)[i][k] == lists[k][i / Size(lists[k + 1..]) % |lists[k]|]
    decreases |lists|
  {
    var front, m := lists[..|lists| - 1], |lists[|lists| - 1]|;
    SizePositive(lists[k + 1..]);
    SplitIndex(i, m);
    ExtendedSplit(Product(front), lists[|lists| - 1], i, i / m, i % m);
    ProductHolds(front, Product(front)[i / m]);
    if k == |front| {
      assert lists[k + 1..] == [];
    } else {
      ProductTurns(front, i / m, k);
      SizeOfTail(lists, k + 1);
      assert lists[k + 1..|lists| - 1] == front[k + 1..];
      DivideTwice(i, m, Size(front[k + 1..]));
    }
  }

  // ---- parameters of a request, and the checkpoint key they give ----

  predicate DistinctNames(specs: seq<ParamSpec>) {
    forall i, j :: 0 <= i < j < |specs| ==> specs[i].name != specs[j].name
  }

  function ParamsOf(lib: Library, specs: seq<ParamSpec>, combo: seq<Json>, n: nat): map<string, string>
    requires n <= |specs| && |combo| == |specs|
  {
    if n == 0 then map[] else ParamsOf(lib, specs, combo, n - 1)[specs[n - 1].name := lib.format(combo[n - 1])]
  }

  method BuildParamsMap(lib: Library, specs: seq<ParamSpec>, combo: seq<Json>) returns (params: map<string, string>)
    requires |combo| == |specs|
    ensures params == ParamsOf(lib, specs, combo, |specs|)
  {
    params := map[];
    for i := 0 to |specs|
      invariant params == ParamsOf(lib, specs, combo, i)
    {
      params := params[specs[i].name := lib.format(combo[i])];
    }
  }

  function CheckpointKey(lib: Library, path: string, pagination: string, params: map<string, string>): string {
    "GET|" + path + "|" + pagination + "|" + (if params == map[] then "{}" else lib.marshal(params))
  }

  lemma {:induction false} ParamStands(lib: Library, specs: seq<ParamSpec>, combo: seq<Json>, n: nat, i: nat)
    requires i < n <= |specs| && |combo| == |specs| && DistinctNames(specs)
    ensures specs[i].name in ParamsOf(lib, specs, combo, n) &&
            ParamsOf(lib, specs, combo, n)[specs[i].name] == lib.format(combo[i])
    decreases n
  {
    if i < n - 1 {
      ParamStands(lib, specs, combo, n - 1, i);
    }
  }

  /** Lists without repeated texts. */
  predicate AllDistinct(lib: Library, lists: seq<seq<Json>>) {
    forall i :: 0 <= i < |lists| ==> DistinctTexts(lib.format, lists[i])
  }

  predicate SameTexts(lib: Library, a: seq<Json>, b: seq<Json>) {
    |a| == |b| && forall i :: 0 <= i < |a| ==> lib.format(a[i]) == lib.format(b[i])
  }

  predicate NoneTwice(lib: Library, combos: seq<seq<Json>>) {
    forall i, j :: 0 <= i < j < |combos| ==> !SameTexts(lib, combos[i], combos[j])
  }

  lemma SameTextsFront(lib: Library, a: seq<Json>, b: seq<Json>)
    requires SameTexts(lib, a, b) && a != []
    ensures SameTexts(lib, a[..|a| - 1], b[..|b| - 1]) && lib.format(a[|a| - 1]) == lib.format(b[|b| - 1])
  {
  }

  /** A combination that extends an earlier one differs from every one that extends the last. */
  lemma PrefixesDiffer(lib: Library, combos: seq<seq<Json>>, values: seq<Json>, a: seq<Json>, b: seq<Json>)
    requires combos != [] && NoneTwice(lib, combos)
    requires a in Extended(combos[..|combos| - 1], values) && b in WithEach(combos[|combos| - 1], values)
    ensures !SameTexts(lib, a, b)
  {
    var front, last := combos[..|combos| - 1], combos[|combos| - 1];
    ExtendedHolds(front, values, a);
    var k :| 0 <= k < |front| && front[k] == a[..|a| - 1];
    assert combos[k] == front[k] && !SameTexts(lib, combos[k], last);
    assert b[..|b| - 1] == last;
    if SameTexts(lib, a, b) {
      SameTextsFront(lib, a, b);
    }
  }

  lemma {:induction false} ExtendedNoneTwice(lib: Library, combos: seq<seq<Json>>, values: seq<Json>, len: nat)
    requires NoneTwice(lib, combos) && DistinctTexts(lib.format, values) && forall c :: c in combos ==> |c| == len
    ensures NoneTwice(lib, Extended(combos, values))
    decreases |combos|
  {
    if combos != [] {
      var front, last := combos[..|combos| - 1], combos[|combos| - 1];
      assert NoneTwice(lib, front) by { assert forall i :: 0 <= i < |front| ==> front[i] == combos[i]; }
      ExtendedNoneTwice(lib, front, values, len);
      var before, after := Extended(front, values), WithEach(last, values);
      forall i, j | 0 <= i < |before| && 0 <= j < |after| ensures !SameTexts(lib, before[i], after[j]) {
        PrefixesDiffer(lib, combos, values, before[i], after[j]);
      }
      forall i, j | 0 <= i < j < |after| ensures !SameTexts(lib, after[i], after[j]) {
        if SameTexts(lib, after[i], after[j]) {
          SameTextsFront(lib, after[i], after[j]);
        }
      }
    }
  }

  lemma {:induction false} ProductNoneTwice(lib: Library, lists: seq<seq<Json>>)
    requires AllDistinct(lib, lists)
    ensures NoneTwice(lib, Product(lists))
    decreases |lists|
  {
    if lists != [] {
      var front := lists[..|lists| - 1];
      assert AllDistinct(lib, front) by { assert forall i :: 0 <= i < |front| ==> front[i] == lists[i]; }
      ProductNoneTwice(lib, front);
      forall c | c in Product(front) ensures |c| == |front| { ProductHolds(front, c); }
      ExtendedNoneTwice(lib, Product(front), lists[|lists| - 1], |front|);
    }
  }

  ghost predicate InjectiveMarshal(lib: Library) {
    && (forall a, b :: a != b ==> lib.marshal(a) != lib.marshal(b))
    && (forall a :: a != map[] ==> lib.marshal(a) != "{}")
  }

  /** One operation calls pairwise different requests in a cycle, and stages pairwise different
      checkpoint keys. */
  lemma KeysAreDistinct(lib: Library, specs: seq<ParamSpec>, published: Published, path: string, pagination: string,
                        i: nat, j: nat)
    requires InjectiveMarshal(lib) && DistinctNames(specs)
    requires EffectiveLists(lib, specs, published, |specs|).Ok? &&
             EffectiveLists(lib, specs, published, |specs|).value.Some?
    requires i < j < |Product(EffectiveLists(lib, specs, published, |specs|).value.value)|
    ensures var combos := Product(EffectiveLists(lib, specs, published, |specs|).value.value);
            && |combos[i]| == |combos[j]| == |specs|
            && CheckpointKey(lib, path, pagination, ParamsOf(lib, specs, combos[i], |specs|))
               != CheckpointKey(lib, path, pagination, ParamsOf(lib, specs, combos[j], |specs|))
  {
    var lists := EffectiveLists(lib, specs, published, |specs|).value.value;
    var combos := Product(lists);
    ListsAre(lib, specs, published, |specs|);
    forall k | 0 <= k < |lists|
      ensures DistinctTexts(lib.format, lists[k]) { EffectiveValuesAre(lib, specs[k], published); }
    ProductNoneTwice(lib, lists);
    ProductHolds(lists, combos[i]);
    ProductHolds(lists, combos[j]);
    var a, b := ParamsOf(lib, specs, combos[i], |specs|), ParamsOf(lib, specs, combos[j], |specs|);
    var k :| 0 <= k < |specs| && lib.format(combos[i][k]) != lib.format(combos[j][k]);
    ParamStands(lib, specs, combos[i], |specs|, k);
    ParamStands(lib, specs, combos[j], |specs|, k);
    assert a != b;
    SameTailsDiffer("GET|" + path + "|" + pagination + "|", if a == map[] then "{}" else lib.marshal(a),
                    if b == map[] then "{}" else lib.marshal(b));
  }

  /** Checkpoints of different requests never share a key: without a bar in path and pagination
      parameter, two keys are equal exactly when path, pagination parameter and parameters are. */
  lemma KeysTellRequestsApart(lib: Library, path1: string, page1: string, params1: map<string, string>,
                              path2: string, page2: string, params2: map<string, string>)
    requires InjectiveMarshal(lib)
    requires '|' !in path1 && '|' !in path2 && '|' !in page1 && '|' !in page2
    ensures CheckpointKey(lib, path1, page1, params1) == CheckpointKey(lib, path2, page2, params2) <==>
            path1 == path2 && page1 == page2 && params1 == params2
  {
    var m1 := if params1 == map[] then "{}" else lib.marshal(params1);
    var m2 := if params2 == map[] then "{}" else lib.marshal(params2);
    var x1, x2 := path1 + "|" + page1 + "|" + m1, path2 + "|" + page2 + "|" + m2;
    assert CheckpointKey(lib, path1, page1, params1) == "GET|" + x1;
    assert CheckpointKey(lib, path2, page2, params2) == "GET|" + x2;
    if x1 == x2 {
      TwoBars(path1, page1, m1, path2, page2, m2);
    } else {
      SameTailsDiffer("GET|", x1, x2);
    }
  }

  lemma OneBar(a: string, x: string, b: string, y: string)
    requires '|' !in a && '|' !in b && a + "|" + x == b + "|" + y
    ensures a == b && x == y
  {
    assert a + "|" + x == a + ("|" + x) && b + "|" + y == b + ("|" + y);
    CutAtFirstBar(a, "|" + x, b, "|" + y);
    assert x == ("|" + x)[1..] && y == ("|" + y)[1..];
  }

  lemma TwoBars(a: string, x: string, m: string, b: string, y: string, n: string)
    requires '|' !in a && '|' !in b && '|' !in x && '|' !in y
    requires a + "|" + x + "|" + m == b + "|" + y + "|" + n
    ensures a == b && x == y && m == n
  {
    assert a + "|" + x + "|" + m == a + "|" + (x + "|" + m) && b + "|" + y + "|" + n == b + "|" + (y + "|" + n);
    OneBar(a, x + "|" + m, b, y + "|" + n);
    OneBar(x, m, y, n);
  }

  /** With bars the keys of two operations can be one and the same. */
  lemma BarsConfuseKeys(lib: Library, params: map<string, string>)
    ensures CheckpointKey(lib, "/a|b", "c", params) == CheckpointKey(lib, "/a", "b|c", params)
  {
    assert "/a|b" + "|" + "c" == "/a" + "|" + "b|c";
  }

  lemma SameTailsDiffer(head: string, a: string, b: string)
    requires a != b
    ensures head + a != head + b
  {
    assert (head + a)[|head|..] == a && (head + b)[|head|..] == b;
  }
}
