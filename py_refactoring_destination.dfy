/** python/refactoring_destination.py: the enhanced versions of the functions
    moved out of refactoring_source.py — value-type counts over a list of
    records, a key remapping that also walks nested structures and can keep
    only chosen keys, lookups of dotted metric paths, and the branches of
    parse_structured_data that need no parser.

    The means, medians, deviations, quantiles and percentages are floats and
    are not modelled; the regular-expression and JSON parsers are library
    code and are not modelled either.
 */
module PyRefactoringDestination {
  import opened Outcomes
  import opened PyValues
  import opened SeqSpecs
  import opened Text
  import Records

  // ----- process_data_enhanced (counts) -----

  /** The number of fields of r, under the given keys, whose value satisfies p. */
  function FieldsWhere(r: Record, keys: set<string>, p: Value -> bool): nat
  {
    |set k | k in keys && k in r && p(r[k])|
  }

  /** The number of fields of all records whose value satisfies p. */
  function CountWhere(data: seq<Record>, p: Value -> bool): nat
  {
    if data == [] then 0
    else CountWhere(data[..|data| - 1], p) + FieldsWhere(data[|data| - 1], data[|data| - 1].Keys, p)
  }

  /** The three categories of process_data_enhanced, checked in this order:
      an int that is not a bool, a string, a bool. */
  predicate IsNumeric(v: Value) { v.PyInt? }
  predicate IsText(v: Value) { v.PyStr? }
  predicate IsBoolean(v: Value) { v.PyBool? }

  /** The boolean fields holding True, and those holding False. */
  predicate IsTrue(v: Value) { v == PyBool(true) }
  predicate IsFalse(v: Value) { v == PyBool(false) }

  datatype ValueTypes = ValueTypes(numeric: nat, text: nat, boolean: nat)
  datatype BooleanStats = BooleanStats(trueCount: nat, falseCount: nat)

  /** The counting part of the result of process_data_enhanced: NoData is
      {"count": 0, "has_data": False, "error": None}. */
  datatype EnhancedSummary =
    | NoData
    | Summary(count: nat, keysFound: set<string>, valueTypes: ValueTypes, booleanStats: Option<BooleanStats>)

  /** Two disjoint properties are counted separately: the count of either is
      the sum of the two counts. */
  lemma {:induction false} CountWhereDisjoint(data: seq<Record>, p: Value -> bool, q: Value -> bool, pq: Value -> bool)
    requires forall v :: !(p(v) && q(v))
    requires forall v :: pq(v) == (p(v) || q(v))
    ensures CountWhere(data, pq) == CountWhere(data, p) + CountWhere(data, q)
  {
    if data != [] {
      CountWhereDisjoint(data[..|data| - 1], p, q, pq);
      var r := data[|data| - 1];
      var sp := set k | k in r.Keys && k in r && p(r[k]);
      var sq := set k | k in r.Keys && k in r && q(r[k]);
      assert (set k | k in r.Keys && k in r && pq(r[k])) == sp + sq;
      assert sp * sq == {};
    }
  }

  /** One step of the inner counting loop: one more key k. */
  lemma FieldsWhereStep(r: Record, done: set<string>, k: string, p: Value -> bool)
    requires k in r && k !in done
    ensures FieldsWhere(r, done + {k}, p) == FieldsWhere(r, done, p) + (if p(r[k]) then 1 else 0)
  {
    var before := set j | j in done && j in r && p(r[j]);
    if p(r[k]) {
      assert (set j | j in done + {k} && j in r && p(r[j])) == before + {k};
    } else {
      assert (set j | j in done + {k} && j in r && p(r[j])) == before;
    }
  }

  /** One step of the inner counting loop for all five categories at once:
      the value of key counts in its own categories only. */
  lemma CategoriesStep(r: Record, done: set<string>, k: string)
    requires k in r && k !in done
    ensures FieldTally(r, done + {k}) == FieldTally(r, done).Plus(ValueTally(r[k]))
  {
    FieldsWhereStep(r, done, k, IsNumeric);
    FieldsWhereStep(r, done, k, IsText);
    FieldsWhereStep(r, done, k, IsBoolean);
    FieldsWhereStep(r, done, k, IsTrue);
    FieldsWhereStep(r, done, k, IsFalse);
  }

  /** process_data_enhanced, its counts: NoData for no records; otherwise the
      record count, the union of the keys, the number of int, string and
      bool fields and, when there are bool fields, how many are True and how
      many False. */
  method ProcessDataEnhanced(data: seq<Record>) returns (summary: EnhancedSummary)
    ensures data == [] <==> summary.NoData?
    ensures summary.Summary? ==> summary.count == |data| && summary.keysFound == Records.AllKeys(data)
    ensures summary.Summary? ==>
              summary.valueTypes == ValueTypes(CountWhere(data, IsNumeric), CountWhere(data, IsText), CountWhere(data, IsBoolean))
    ensures summary.Summary? ==> (summary.booleanStats.Some? <==> CountWhere(data, IsBoolean) > 0)
    ensures summary.Summary? && summary.booleanStats.Some? ==>
              summary.booleanStats.value == BooleanStats(CountWhere(data, IsTrue), CountWhere(data, IsFalse))
  {
    if data == [] {
      return NoData;
    }
    var numericValues: seq<int> := [];
    var textValues: seq<string> := [];
    var booleanValues: seq<bool> := [];
    for i := 0 to |data|
      invariant ListTally(numericValues, textValues, booleanValues) == DataTally(data[..i])
    {
      assert data[..i + 1][..i] == data[..i];
      assert data[..i + 1][i] == data[i];
      numericValues, textValues, booleanValues := CollectFieldValues(data[i], numericValues, textValues, booleanValues);
    }
    assert data[..|data|] == data;
    var keysFound := set i, k | 0 <= i < |data| && k in data[i] :: k;
    var valueTypes := ValueTypes(|numericValues|, |textValues|, |booleanValues|);
    var booleanStats: Option<BooleanStats> := None;
    if |booleanValues| > 0 {
      booleanStats := Some(BooleanStats(multiset(booleanValues)[true], multiset(booleanValues)[false]));
    }
    return Summary(|data|, keysFound, valueTypes, booleanStats);
  }

  /** The five counts kept while walking the fields: ints, strings, bools,
      True values and False values. */
  datatype Tally = Tally(numeric: nat, text: nat, boolean: nat, trues: nat, falses: nat)
  {
    function Plus(other: Tally): Tally
    {
      Tally(numeric + other.numeric, text + other.text, boolean + other.boolean,
            trues + other.trues, falses + other.falses)
    }
  }

  /** Adding counts is associative. */
  lemma PlusAssoc(a: Tally, b: Tally, c: Tally)
    ensures a.Plus(b).Plus(c) == a.Plus(b.Plus(c))
  {
  }

  /** The counts of the fields of r under the given keys. */
  function FieldTally(r: Record, keys: set<string>): Tally
  {
    Tally(FieldsWhere(r, keys, IsNumeric), FieldsWhere(r, keys, IsText), FieldsWhere(r, keys, IsBoolean),
          FieldsWhere(r, keys, IsTrue), FieldsWhere(r, keys, IsFalse))
  }

  /** The counts of all fields of all records. */
  function DataTally(data: seq<Record>): Tally
  {
    Tally(CountWhere(data, IsNumeric), CountWhere(data, IsText), CountWhere(data, IsBoolean),
          CountWhere(data, IsTrue), CountWhere(data, IsFalse))
  }

  /** The counts one value contributes. */
  function ValueTally(v: Value): Tally
  {
    Tally(if v.PyInt? then 1 else 0, if v.PyStr? then 1 else 0, if v.PyBool? then 1 else 0,
          if v == PyBool(true) then 1 else 0, if v == PyBool(false) then 1 else 0)
  }

  /** The counts read off the three lists. */
  function ListTally(numeric: seq<int>, text: seq<string>, boolean: seq<bool>): Tally
  {
    Tally(|numeric|, |text|, |boolean|, multiset(boolean)[true], multiset(boolean)[false])
  }

  /** The inner loop of process_data_enhanced over the items of one record:
      each int, string and bool value is appended to its own list. */
  method CollectFieldValues(item: Record, numeric: seq<int>, text: seq<string>, boolean: seq<bool>)
    returns (numericValues: seq<int>, textValues: seq<string>, booleanValues: seq<bool>)
    ensures ListTally(numericValues, textValues, booleanValues) == ListTally(numeric, text, boolean).Plus(FieldTally(item, item.Keys))
  {
    numericValues, textValues, booleanValues := numeric, text, boolean;
    var rest := item.Keys;
    ghost var done: set<string> := {};
    ghost var start := ListTally(numeric, text, boolean);
    assert FieldTally(item, {}) == Tally(0, 0, 0, 0, 0);
    while rest != {}
      invariant rest <= item.Keys && done == item.Keys - rest
      invariant ListTally(numericValues, textValues, booleanValues) == start.Plus(FieldTally(item, done))
      decreases rest
    {
      var key :| key in rest;
      TakeOne(item.Keys, rest, key);
      ghost var counted := FieldTally(item, done);
      CategoriesStep(item, done, key);
      numericValues, textValues, booleanValues := AppendByType(item[key], numericValues, textValues, booleanValues);
      PlusAssoc(start, counted, ValueTally(item[key]));
      assert ListTally(numericValues, textValues, booleanValues) == start.Plus(FieldTally(item, done + {key}));
      done := done + {key};
      rest := rest - {key};
    }
    assert done == item.Keys;
  }

  /** The body of the inner loop: an int, a string or a bool value is
      appended to its own list; any other value is skipped. */
  method AppendByType(value: Value, numeric: seq<int>, text: seq<string>, boolean: seq<bool>)
    returns (numericValues: seq<int>, textValues: seq<string>, booleanValues: seq<bool>)
    ensures ListTally(numericValues, textValues, booleanValues) == ListTally(numeric, text, boolean).Plus(ValueTally(value))
  {
    numericValues, textValues, booleanValues := numeric, text, boolean;
    if value.PyInt? {
      numericValues := numericValues + [value.i];
    } else if value.PyStr? {
      textValues := textValues + [value.s];
    } else if value.PyBool? {
      booleanValues := booleanValues + [value.b];
    }
  }

  /** Each bool field is True or False, so the two counts of boolean_stats add
      up to the number of bool fields; the three categories never overlap. */
  lemma BooleanCountsAddUp(data: seq<Record>)
    ensures CountWhere(data, IsTrue) + CountWhere(data, IsFalse) == CountWhere(data, IsBoolean)
    ensures CountWhere(data, v => IsNumeric(v) || IsText(v)) == CountWhere(data, IsNumeric) + CountWhere(data, IsText)
  {
    CountWhereDisjoint(data, IsTrue, IsFalse, IsBoolean);
    CountWhereDisjoint(data, IsNumeric, IsText, v => IsNumeric(v) || IsText(v));
  }

  // ----- transform_data_structure (recursive, with filter_keys) -----

  predicate IsDict(v: Value) { v.PyDict? }

  /** `if filter_keys:` — None and the empty list both mean no filtering. */
  predicate Filtering(filterKeys: Option<seq<string>>)
  {
    filterKeys.Some? && filterKeys.value != []
  }

  /** The restriction of a result to filter_keys, when that is a non-empty list. */
  function KeepKeys(result: Record, filterKeys: Option<seq<string>>): (kept: Record)
    ensures !Filtering(filterKeys) ==> kept == result
    ensures Filtering(filterKeys) ==> forall k :: k in kept <==> k in result && k in filterKeys.value
    ensures forall k :: k in kept ==> k in result && kept[k] == result[k]
  {
    if Filtering(filterKeys) then map k | k in result && k in filterKeys.value :: result[k] else result
  }

  /** The enhanced transform: a list becomes the transforms of its dictionary
      elements, in order, its other elements dropped; a dictionary is
      remapped as in the flat version, each value first transformed itself
      when recursive is set and the value is a dictionary or a list, and the
      result is then cut down to filter_keys when that is a non-empty list. */
  function Transform(data: Value, mapping: Records.Mapping, recursive: bool, filterKeys: Option<seq<string>>): Value
    requires data.PyDict? || data.PyList?
    decreases data, 1
  {
    match data
    case PyList(xs) =>
      var dicts := Filter(xs, IsDict);
      FilterElements(xs, IsDict);
      PyList(seq(|dicts|, i requires 0 <= i < |dicts| && dicts[i] in xs && dicts[i].PyDict? =>
                             Transform(dicts[i], mapping, recursive, filterKeys)))
    case PyDict(d) =>
      PyDict(KeepKeys(Records.RemapRecord(NestedValues(d, mapping, recursive, filterKeys), mapping), filterKeys))
  }

  /** The values of a dictionary as the enhanced transform uses them: each
      nested dictionary or list transformed when recursive is set, every other
      value as it is. */
  function NestedValues(d: Record, mapping: Records.Mapping, recursive: bool, filterKeys: Option<seq<string>>): (values: Record)
    ensures values.Keys == d.Keys
    ensures forall k :: k in d ==>
              values[k] == (if recursive && (d[k].PyDict? || d[k].PyList?) then Transform(d[k], mapping, recursive, filterKeys) else d[k])
    decreases PyDict(d), 0
  {
    map k | k in d :: if recursive && (d[k].PyDict? || d[k].PyList?) then Transform(d[k], mapping, recursive, filterKeys) else d[k]
  }

  /** Without recursion and without filter_keys the enhanced transform of a
      dictionary is the flat remapping of refactoring_source.py. */
  lemma FlatTransformAgrees(d: Record, mapping: Records.Mapping, filterKeys: Option<seq<string>>)
    requires !Filtering(filterKeys)
    ensures Transform(PyDict(d), mapping, false, filterKeys) == PyDict(Records.RemapRecord(d, mapping))
  {
    assert NestedValues(d, mapping, false, filterKeys) == d;
  }

  /** With a non-empty filter_keys every key of a transformed dictionary is
      listed in it, and a listed key is kept whenever the remapping produces it. */
  lemma FilterKeysRestrict(d: Record, mapping: Records.Mapping, recursive: bool, ks: seq<string>, k: string)
    requires ks != []
    ensures var r := Transform(PyDict(d), mapping, recursive, Some(ks));
            r.PyDict? && (k in r.entries ==> k in ks)
    ensures var r := Transform(PyDict(d), mapping, recursive, Some(ks));
            r.PyDict? &&
            (k in r.entries <==> k in ks && k in Records.RemapRecord(NestedValues(d, mapping, recursive, Some(ks)), mapping))
  {
  }

  /** A transformed list holds one transformed dictionary per dictionary of
      the input, in order; every other element is dropped, even inside a
      dictionary transformed recursively. */
  lemma TransformListDropsNonDicts(xs: seq<Value>, mapping: Records.Mapping, recursive: bool, filterKeys: Option<seq<string>>)
    ensures var r := Transform(PyList(xs), mapping, recursive, filterKeys);
            r.PyList? && |r.items| == |Filter(xs, IsDict)|
            && forall i :: 0 <= i < |r.items| ==> r.items[i].PyDict?
    ensures (forall i :: 0 <= i < |xs| ==> !xs[i].PyDict?) ==> Transform(PyList(xs), mapping, recursive, filterKeys) == PyList([])
  {
    var dicts := Filter(xs, IsDict);
    var r := Transform(PyList(xs), mapping, recursive, filterKeys);
    FilterElements(xs, IsDict);
    assert r.PyList? && |r.items| == |dicts|;
    forall i | 0 <= i < |r.items| ensures r.items[i].PyDict? {
      assert IsDict(dicts[i]);
      assert r.items[i] == Transform(dicts[i], mapping, recursive, filterKeys);
      TransformDictIsDict(dicts[i], mapping, recursive, filterKeys);
    }
    if forall i :: 0 <= i < |xs| ==> !xs[i].PyDict? {
      assert forall i :: 0 <= i < |xs| ==> !IsDict(xs[i]);
      FilterExtremes(xs, IsDict);
      assert |r.items| == 0;
    }
  }

  /** The transform of a dictionary is a dictionary. */
  lemma TransformDictIsDict(v: Value, mapping: Records.Mapping, recursive: bool, filterKeys: Option<seq<string>>)
    requires v.PyDict?
    ensures Transform(v, mapping, recursive, filterKeys).PyDict?
  {
  }

  /** transform_data_structure: a list keeps the transforms of its
      dictionary elements, every other element skipped; a dictionary is
      handled by TransformDict. */
  method TransformDataStructure(data: Value, mapping: Records.Mapping, recursive: bool, filterKeys: Option<seq<string>>)
    returns (r: Value)
    requires data.PyDict? || data.PyList?
    requires Records.IsMapping(mapping)
    ensures r == Transform(data, mapping, recursive, filterKeys)
    decreases data, 2
  {
    if data.PyDict? {
      var result := TransformDict(data.entries, mapping, recursive, filterKeys);
      return PyDict(result);
    }
    var items := TransformList(data.items, mapping, recursive, filterKeys);
    return PyList(items);
  }

  /** The list comprehension of transform_data_structure: the dictionary
      elements transformed, in order. */
  method TransformList(xs: seq<Value>, mapping: Records.Mapping, recursive: bool, filterKeys: Option<seq<string>>)
    returns (items: seq<Value>)
    requires Records.IsMapping(mapping)
    ensures PyList(items) == Transform(PyList(xs), mapping, recursive, filterKeys)
    decreases PyList(xs), 1
  {
    items := [];
    for i := 0 to |xs|
      invariant |items| == |Filter(xs[..i], IsDict)|
      invariant forall m :: 0 <= m < |items| ==>
                  Filter(xs[..i], IsDict)[m].PyDict? && items[m] == Transform(Filter(xs[..i], IsDict)[m], mapping, recursive, filterKeys)
    {
      ghost var f := Filter(xs[..i], IsDict);
      FilterSnoc(xs, i, IsDict);
      if xs[i].PyDict? {
        assert Filter(xs[..i + 1], IsDict) == f + [xs[i]];
        var t := TransformDataStructure(xs[i], mapping, recursive, filterKeys);
        items := items + [t];
      } else {
        assert Filter(xs[..i + 1], IsDict) == f + [];
      }
    }
    assert xs[..|xs|] == xs;
    ghost var dicts := Filter(xs, IsDict);
    FilterElements(xs, IsDict);
    ghost var t := Transform(PyList(xs), mapping, recursive, filterKeys);
    assert |t.items| == |dicts| == |items|;
    assert forall m :: 0 <= m < |items| ==> t.items[m] == items[m];
    assert t.items == items;
  }

  /** The dictionary case of transform_data_structure: the mapping loop, the
      loop over the unmapped keys, then the restriction to filter_keys. */
  method TransformDict(d: Record, mapping: Records.Mapping, recursive: bool, filterKeys: Option<seq<string>>)
    returns (result: Record)
    requires Records.IsMapping(mapping)
    ensures PyDict(result) == Transform(PyDict(d), mapping, recursive, filterKeys)
    decreases PyDict(d), 1
  {
    ghost var values := NestedValues(d, mapping, recursive, filterKeys);
    result := MapEntries(d, mapping, recursive, filterKeys);
    result := CopyUnmapped(d, mapping, recursive, filterKeys, result);
    assert result == Records.RemapRecord(values, mapping);
    if Filtering(filterKeys) {
      result := map k | k in result && k in filterKeys.value :: result[k];
    }
    assert result == KeepKeys(Records.RemapRecord(values, mapping), filterKeys);
  }

  /** `if recursive and isinstance(value, dict/list)`: the value transformed
      itself, or left as it is. */
  method TransformValue(value: Value, mapping: Records.Mapping, recursive: bool, filterKeys: Option<seq<string>>)
    returns (r: Value)
    requires Records.IsMapping(mapping)
    ensures r == if recursive && (value.PyDict? || value.PyList?) then Transform(value, mapping, recursive, filterKeys) else value
    decreases value, 3
  {
    r := value;
    if recursive && (value.PyDict? || value.PyList?) {
      r := TransformDataStructure(value, mapping, recursive, filterKeys);
    }
  }

  /** The mapping loop: each present old key's value, transformed when
      nested, stored under its new key. */
  method MapEntries(d: Record, mapping: Records.Mapping, recursive: bool, filterKeys: Option<seq<string>>)
    returns (result: Record)
    requires Records.IsMapping(mapping)
    ensures result == Records.MappedPart(NestedValues(d, mapping, recursive, filterKeys), mapping)
    decreases PyDict(d), 0
  {
    ghost var values := NestedValues(d, mapping, recursive, filterKeys);
    result := map[];
    for e := 0 to |mapping|
      invariant result == Records.MappedPart(values, mapping[..e])
    {
      assert mapping[..e + 1][..e] == mapping[..e];
      var (oldKey, newKey) := mapping[e];
      if oldKey in d {
        var value := TransformValue(d[oldKey], mapping, recursive, filterKeys);
        result := result[newKey := value];
      }
    }
    assert mapping[..|mapping|] == mapping;
  }

  /** The loop over the items: each key the mapping does not mention, its value
      transformed when nested, added to what the mapping loop produced. */
  method CopyUnmapped(d: Record, mapping: Records.Mapping, recursive: bool, filterKeys: Option<seq<string>>, mapped: Record)
    returns (result: Record)
    requires Records.IsMapping(mapping)
    ensures result == mapped + Records.Unmapped(NestedValues(d, mapping, recursive, filterKeys), mapping)
    decreases PyDict(d), 0
  {
    ghost var values := NestedValues(d, mapping, recursive, filterKeys);
    var oldKeys := Records.OldKeys(mapping);
    result := mapped;
    var rest := d.Keys;
    assert Records.Copied(values, rest, oldKeys) == map[];
    while rest != {}
      invariant rest <= d.Keys
      invariant result == mapped + Records.Copied(values, rest, oldKeys)
      decreases rest
    {
      var key :| key in rest;
      Records.CopyStep(mapped, values, rest, oldKeys, key);
      if key !in oldKeys {
        var value := TransformValue(d[key], mapping, recursive, filterKeys);
        result := result[key := value];
      }
      rest := rest - {key};
    }
    assert Records.Copied(values, {}, oldKeys) == Records.Unmapped(values, mapping);
  }


  // ----- extract_metric_data -----

  /** Successive lookups current = current[part]: only a dictionary holding
      the part can be indexed by it; every other step raises KeyError or
      TypeError, which the caller turns into None. */
  function Lookup(current: Value, parts: seq<string>): (r: Option<Value>)
    ensures parts == [] ==> r == Some(current)
    ensures parts != [] && !(current.PyDict? && parts[0] in current.entries) ==> r == None
  {
    if parts == [] then Some(current)
    else if current.PyDict? && parts[0] in current.entries then Lookup(current.entries[parts[0]], parts[1..])
    else None
  }

  /** The metric stored for one path: the value reached along its
      dot-separated segments, or None. */
  function MetricValue(data: Record, path: string): Value
  {
    match Lookup(PyDict(data), Split(path, '.'))
    case Some(v) => v
    case None => PyNone
  }

  /** A path without a dot is a plain key of the top-level record. */
  lemma MetricOfPlainKey(data: Record, path: string)
    requires '.' !in path
    ensures MetricValue(data, path) == Get(data, path)
  {
    SplitNoSep(path, '.');
    assert [path][1..] == [];
  }

  /** A dotted path goes through the dictionary under its first segment. */
  lemma MetricOfDottedPath(data: Record, first: string, rest: string)
    requires '.' !in first
    ensures MetricValue(data, first + "." + rest) ==
              if first in data && data[first].PyDict? then MetricValue(data[first].entries, rest) else PyNone
  {
    SplitPrefix(first, rest);
  }

  /** Splitting "first.rest" at dots gives first, then the parts of rest. */
  lemma {:induction false} SplitPrefix(first: string, rest: string)
    requires '.' !in first
    ensures Split(first + "." + rest, '.') == [first] + Split(rest, '.')
    decreases |rest|
  {
    if rest == [] {
      SplitNoSep(first, '.');
      assert first + "." + rest == first + ".";
      assert (first + ".")[..|first|] == first;
      assert Split(rest, '.') == [[]];
    } else {
      var init, c := rest[..|rest| - 1], rest[|rest| - 1];
      var w := first + "." + init;
      SplitPrefix(first, init);
      assert first + "." + rest == w + [c];
      assert rest == init + [c];
      SplitPrefixStep(first, w, init, c);
    }
  }

  /** The step of SplitPrefix: one more character at the end of both strings. */
  lemma SplitPrefixStep(first: string, w: string, init: string, c: char)
    requires Split(w, '.') == [first] + Split(init, '.')
    ensures Split(w + [c], '.') == [first] + Split(init + [c], '.')
  {
    SplitSnoc(w, c, '.');
    SplitSnoc(init, c, '.');
    if c == '.' {
      ConsAppend(first, Split(init, '.'), []);
    } else {
      ConsExtendLast(first, Split(init, '.'), c);
    }
  }

  /** Appending to a sequence behind a head is appending to the whole. */
  lemma ConsAppend<T>(h: T, q: seq<T>, x: T)
    ensures [h] + q + [x] == [h] + (q + [x])
  {
  }

  /** Extending the last part of q behind a head h is extending the last part
      of [h] + q. */
  lemma ConsExtendLast(h: string, q: seq<string>, c: char)
    requires |q| >= 1
    ensures var ws := [h] + q;
            ws[..|ws| - 1] + [ws[|ws| - 1] + [c]] == [h] + (q[..|q| - 1] + [q[|q| - 1] + [c]])
  {
    var ws := [h] + q;
    assert ws[..|ws| - 1] == [h] + q[..|q| - 1];
    assert ws[|ws| - 1] == q[|q| - 1];
  }

  /** extract_metric_data: for every path in order, split it at dots and
      follow the segments from the record, storing the value reached or None
      when a step fails. */
  method ExtractMetricData(data: Record, metricPaths: seq<string>) returns (result: map<string, Value>)
    ensures result.Keys == set i | 0 <= i < |metricPaths| :: metricPaths[i]
    ensures forall path :: path in result ==> result[path] == MetricValue(data, path)
  {
    result := map[];
    for i := 0 to |metricPaths|
      invariant result.Keys == set m | 0 <= m < i :: metricPaths[m]
      invariant forall path :: path in result ==> result[path] == MetricValue(data, path)
    {
      var path := metricPaths[i];
      var parts := Split(path, '.');
      var current := PyDict(data);
      var failed := false;
      var j := 0;
      while j < |parts| && !failed
        invariant 0 <= j <= |parts|
        invariant !failed ==> Lookup(PyDict(data), parts) == Lookup(current, parts[j..])
        invariant failed ==> Lookup(PyDict(data), parts) == None
      {
        assert parts[j..][0] == parts[j] && parts[j..][1..] == parts[j + 1..];
        if current.PyDict? && parts[j] in current.entries {
          current := current.entries[parts[j]];
        } else {
          failed := true;
        }
        j := j + 1;
      }
      if failed {
        result := result[path := PyNone];
      } else {
        assert parts[j..] == [];
        result := result[path := current];
      }
    }
  }

  // ----- parse_structured_data -----

  /** parse_structured_data, the branches that need no parser: {} for empty
      text (whatever the format), an error entry for an unknown format.
      None stands for the key_value and json branches, whose regular
      expression and JSON parser are not modelled. */
  function ParseStructuredData(text: string, formatType: string): (r: Option<Record>)
    ensures text == [] ==> r == Some(map[])
    ensures text != [] && formatType != "key_value" && formatType != "json" ==>
              r == Some(map["error" := PyStr("Unsupported format: " + formatType)])
    ensures r.None? <==> text != [] && (formatType == "key_value" || formatType == "json")
  {
    if text == [] then Some(map[])
    else if formatType == "key_value" || formatType == "json" then None
    else Some(map["error" := PyStr("Unsupported format: " + formatType)])
  }
}
