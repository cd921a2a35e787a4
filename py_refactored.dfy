/** python/refactored_function.py: the pipeline steps split out of one large
    function — reading the options of a configuration, renaming the columns of
    every record, filtering records by per-field criteria, and counting the
    fields and their types.

    A filter criteria dictionary is iterated in insertion order and the first
    failing criterion decides, so it is a sequence of (field, criterion)
    pairs with distinct fields. Floating-point numbers are not modelled: a
    field value that convert_value_if_numeric would turn into a float is
    excluded by precondition.
 */
module PyRefactored {
  import opened Outcomes
  import opened PyValues
  import opened SeqSpecs
  import opened Text
  import Records

  // ----- extract_config_options -----

  /** extract_config_options: five options, each taken from the configuration
      when present and defaulted otherwise; include_stats is read from the
      key "include_statistics". */
  function ExtractConfigOptions(config: Record): (options: Record)
    ensures options.Keys == {"column_mapping", "filter_criteria", "aggregation_fields", "include_stats", "output_format"}
    ensures "column_mapping" in config ==> options["column_mapping"] == config["column_mapping"]
    ensures "column_mapping" !in config ==> options["column_mapping"] == PyDict(map[])
    ensures "filter_criteria" in config ==> options["filter_criteria"] == config["filter_criteria"]
    ensures "filter_criteria" !in config ==> options["filter_criteria"] == PyDict(map[])
    ensures "aggregation_fields" in config ==> options["aggregation_fields"] == config["aggregation_fields"]
    ensures "aggregation_fields" !in config ==> options["aggregation_fields"] == PyList([])
    ensures "include_statistics" in config ==> options["include_stats"] == config["include_statistics"]
    ensures "include_statistics" !in config ==> options["include_stats"] == PyBool(true)
    ensures "output_format" in config ==> options["output_format"] == config["output_format"]
    ensures "output_format" !in config ==> options["output_format"] == PyStr("json")
  {
    map[
      "column_mapping" := GetOr(config, "column_mapping", PyDict(map[])),
      "filter_criteria" := GetOr(config, "filter_criteria", PyDict(map[])),
      "aggregation_fields" := GetOr(config, "aggregation_fields", PyList([])),
      "include_stats" := GetOr(config, "include_statistics", PyBool(true)),
      "output_format" := GetOr(config, "output_format", PyStr("json"))
    ]
  }

  /** A key named "include_stats" in the configuration is not read: only
      "include_statistics" sets the option. */
  lemma IncludeStatsReadsOtherKey(config: Record)
    requires "include_statistics" !in config
    ensures ExtractConfigOptions(config)["include_stats"] == PyBool(true)
  {
  }

  // ----- apply_column_mapping -----

  /** apply_column_mapping: the data itself for an empty mapping; otherwise,
      for each record in order, the mapped keys in mapping order and then
      every field whose key the mapping does not mention, so that such a
      field wins a collision with a new key. Both branches agree with the
      remapping, which is the identity for the empty mapping. */
  method ApplyColumnMapping(data: seq<Record>, mapping: Records.Mapping) returns (mappedData: seq<Record>)
    requires Records.IsMapping(mapping)
    ensures mapping == [] ==> mappedData == data
    ensures |mappedData| == |data|
    ensures forall i :: 0 <= i < |data| ==> mappedData[i] == Records.RemapRecord(data[i], mapping)
  {
    if mapping == [] {
      forall i | 0 <= i < |data|
        ensures data[i] == Records.RemapRecord(data[i], mapping)
      {
        Records.RemapEmpty(data[i]);
      }
      return data;
    }
    var oldKeys := Records.OldKeys(mapping);
    mappedData := [];
    for i := 0 to |data|
      invariant |mappedData| == i
      invariant forall m :: 0 <= m < i ==> mappedData[m] == Records.RemapRecord(data[m], mapping)
    {
      var mappedItem := MapItem(data[i], mapping, oldKeys);
      mappedData := mappedData + [mappedItem];
    }
  }

  /** The body of apply_column_mapping's loop for one record: the mapped keys
      in mapping order, then the fields whose keys the mapping does not
      mention; the result is the remapped record. */
  method MapItem(item: Record, mapping: Records.Mapping, oldKeys: set<string>) returns (mappedItem: Record)
    requires oldKeys == Records.OldKeys(mapping)
    ensures mappedItem == Records.RemapRecord(item, mapping)
  {
    mappedItem := map[];
    for e := 0 to |mapping|
      invariant mappedItem == Records.MappedPart(item, mapping[..e])
    {
      assert mapping[..e + 1][..e] == mapping[..e];
      var (oldKey, newKey) := mapping[e];
      if oldKey in item {
        mappedItem := mappedItem[newKey := item[oldKey]];
      }
    }
    assert mapping[..|mapping|] == mapping;
    ghost var first := mappedItem;
    var rest := item.Keys;
    assert Records.Copied(item, rest, oldKeys) == map[];
    while rest != {}
      invariant rest <= item.Keys
      invariant mappedItem == first + Records.Copied(item, rest, oldKeys)
      decreases rest
    {
      var k :| k in rest;
      Records.CopyStep(first, item, rest, oldKeys, k);
      if k !in oldKeys {
        mappedItem := mappedItem[k := item[k]];
      }
      rest := rest - {k};
    }
    assert Records.Copied(item, {}, oldKeys) == Records.Unmapped(item, mapping);
  }

  // ----- convert_value_if_numeric -----

  /** A string that convert_value_if_numeric turns into a float: one '.' and
      digits around it, such as "1.5", ".5" or "5.". */
  predicate IsDecimalText(s: string)
  {
    exists i :: 0 <= i < |s| && s[i] == '.' && AllDigits(s[..i] + s[i + 1..])
  }

  /** A value outside the float branch of convert_value_if_numeric. */
  predicate NotDecimal(v: Value)
  {
    !(v.PyStr? && IsDecimalText(v.s))
  }

  /** Every field of the record stays outside the float branch. */
  predicate IntegralRecord(item: Record)
  {
    forall k :: k in item ==> NotDecimal(item[k])
  }

  /** convert_value_if_numeric: a string of decimal digits becomes its int;
      every other value, strings included, is returned as it is. */
  function ConvertValueIfNumeric(value: Value): (r: Value)
    requires NotDecimal(value)
    ensures !value.PyStr? ==> r == value
    ensures value.PyStr? && AllDigits(value.s) ==> r == PyInt(ParseNat(value.s))
    ensures value.PyStr? && !AllDigits(value.s) ==> r == value
  {
    if value.PyStr? && AllDigits(value.s) then PyInt(ParseNat(value.s)) else value
  }

  /** The text of a natural number converts back to that number. */
  lemma ConvertNumberText(n: nat)
    ensures NotDecimal(PyStr(NatToString(n)))
    ensures ConvertValueIfNumeric(PyStr(NatToString(n))) == PyInt(n)
  {
    ParseNatToString(n);
  }

  /** Converting twice is converting once, and the result is never a digit string. */
  lemma ConvertIdempotent(value: Value)
    requires NotDecimal(value)
    ensures NotDecimal(ConvertValueIfNumeric(value))
    ensures ConvertValueIfNumeric(ConvertValueIfNumeric(value)) == ConvertValueIfNumeric(value)
    ensures ConvertValueIfNumeric(value).PyStr? ==> !AllDigits(ConvertValueIfNumeric(value).s)
  {
  }

  // ----- check_filter_criteria -----

  /** Filter criteria: (field, criterion) pairs in dictionary order. */
  type Criteria = seq<(string, Value)>

  /** The operators of a criterion dictionary, in the order they are checked. */
  const Operators: seq<string> := ["eq", "ne", "gt", "lt", "in", "contains"]

  /** value > bound (or value < bound) for a number value: Python orders two
      numbers and raises TypeError for any other bound. */
  function Compare(op: string, value: Value, bound: Value): (r: Result<bool>)
    requires op == ">" || op == "<"
    requires IsNumber(value)
    ensures r.Err? <==> !IsNumber(bound)
    ensures r.Err? ==> r.kind == TypeError
    ensures r.Ok? && op == ">" ==> (r.value <==> NumValue(value) > NumValue(bound))
    ensures r.Ok? && op == "<" ==> (r.value <==> NumValue(value) < NumValue(bound))
  {
    if !IsNumber(bound) then
      Err(TypeError, "'" + op + "' not supported between instances of '" + TypeName(value) + "' and '" + TypeName(bound) + "'")
    else if op == ">" then Ok(NumValue(value) > NumValue(bound))
    else Ok(NumValue(value) < NumValue(bound))
  }

  /** Python's `value in container`: equality with an element of a list, key
      lookup in a dictionary (which hashes the value first), a substring of a
      string (which needs a string); any other container raises TypeError. */
  function PyIn(value: Value, container: Value): (r: Result<bool>)
    ensures r.Err? ==> r.kind == TypeError
    ensures container.PyList? ==> r == Ok(exists k :: 0 <= k < |container.items| && PyEq(value, container.items[k]))
    ensures container.PyDict? ==> (r.Err? <==> !Hashable(value))
    ensures container.PyDict? && r.Ok? ==> (r.value <==> value.PyStr? && value.s in container.entries)
    ensures container.PyStr? ==> (r.Err? <==> !value.PyStr?)
    ensures container.PyStr? && r.Ok? ==> (r.value <==> exists i :: 0 <= i <= |container.s| && OccursAt(value.s, container.s, i))
    ensures container.PyNone? || IsNumber(container) ==> r.Err?
  {
    match container
    case PyList(xs) => Ok(exists k :: 0 <= k < |xs| && PyEq(value, xs[k]))
    case PyDict(m) =>
      if !Hashable(value) then Err(TypeError, "unhashable type: '" + TypeName(value) + "'")
      else Ok(value.PyStr? && value.s in m)
    case PyStr(t) =>
      if value.PyStr? then Ok(Contains(t, value.s))
      else Err(TypeError, "'in <string>' requires string as left operand, not " + TypeName(value))
    case _ => Err(TypeError, "argument of type '" + TypeName(container) + "' is not iterable")
  }

  /** The test of one operator of a criterion dictionary c: Ok(true) when the
      operator is absent or holds, Ok(false) when it fails, Err when Python
      raises while testing it. */
  function OperatorCheck(c: map<string, Value>, op: string, value: Value): (r: Result<bool>)
    ensures op !in c ==> r == Ok(true)
    ensures r.Err? ==> r.kind == TypeError
    ensures op in c && (op == "gt" || op == "lt") && !IsNumber(value) ==> r == Ok(false)
    ensures op in c && op == "contains" && !value.PyStr? ==> r == Ok(false)
  {
    if op !in c then Ok(true)
    else if op == "eq" then Ok(PyEq(value, c["eq"]))
    else if op == "ne" then Ok(!PyEq(value, c["ne"]))
    else if op == "gt" then (if IsNumber(value) then Compare(">", value, c["gt"]) else Ok(false))
    else if op == "lt" then (if IsNumber(value) then Compare("<", value, c["lt"]) else Ok(false))
    else if op == "in" then PyIn(value, c["in"])
    else if op == "contains" then (if value.PyStr? then PyIn(c["contains"], value) else Ok(false))
    else Ok(true)
  }

  /** Run check and, only when it passes, the rest. */
  function AndThen(check: Result<bool>, rest: Result<bool>): Result<bool>
  {
    if check == Ok(true) then rest else check
  }

  /** A sequence of checks run in order, stopping at the first one that does
      not pass (fails or raises). */
  function FirstFailure(checks: seq<Result<bool>>): Result<bool>
  {
    if checks == [] then Ok(true) else AndThen(checks[0], FirstFailure(checks[1..]))
  }

  /** The checks pass together exactly when each passes; otherwise the outcome
      is that of the first check that does not pass. */
  lemma {:induction false} FirstFailureFacts(checks: seq<Result<bool>>)
    ensures FirstFailure(checks) == Ok(true) <==> forall i :: 0 <= i < |checks| ==> checks[i] == Ok(true)
    ensures FirstFailure(checks) != Ok(true) ==>
              exists i :: 0 <= i < |checks| && FirstFailure(checks) == checks[i]
                && forall m :: 0 <= m < i ==> checks[m] == Ok(true)
  {
    if checks != [] {
      var rest := checks[1..];
      FirstFailureFacts(rest);
      if checks[0] == Ok(true) && FirstFailure(rest) != Ok(true) {
        var i :| 0 <= i < |rest| && FirstFailure(rest) == rest[i] && forall m :: 0 <= m < i ==> rest[m] == Ok(true);
        assert checks[i + 1] == rest[i];
        assert forall m :: 0 <= m < i + 1 ==> checks[m] == Ok(true) by {
          forall m | 0 <= m < i + 1 ensures checks[m] == Ok(true) {
            if m > 0 { assert checks[m] == rest[m - 1]; }
          }
        }
      }
    }
  }

  /** After a run of passing checks, the next one decides if it does not pass. */
  lemma {:induction false} FirstFailureAt(checks: seq<Result<bool>>, i: int)
    requires 0 <= i < |checks|
    requires forall m :: 0 <= m < i ==> checks[m] == Ok(true)
    ensures checks[i] != Ok(true) ==> FirstFailure(checks) == checks[i]
    ensures checks[i] == Ok(true) ==> FirstFailure(checks) == FirstFailure(checks[i + 1..])
  {
    if i > 0 {
      var rest := checks[1..];
      assert forall m :: 0 <= m < i - 1 ==> rest[m] == checks[m + 1];
      FirstFailureAt(rest, i - 1);
      assert rest[i - 1] == checks[i];
      assert rest[i..] == checks[i + 1..];
    }
  }

  /** The operator tests of a criterion dictionary, in order. */
  function OperatorChecks(c: map<string, Value>, value: Value): (checks: seq<Result<bool>>)
    ensures |checks| == |Operators|
    ensures forall k :: 0 <= k < |Operators| ==> checks[k] == OperatorCheck(c, Operators[k], value)
  {
    seq(|Operators|, k requires 0 <= k < |Operators| => OperatorCheck(c, Operators[k], value))
  }

  /** The test of one criterion against a converted field value: equality for
      a plain criterion; for a dictionary, every operator present must hold,
      and the first one that fails or raises decides. */
  function CheckOne(value: Value, criterion: Value): (r: Result<bool>)
    ensures !criterion.PyDict? ==> r == Ok(PyEq(value, criterion))
    ensures criterion.PyDict? ==>
              (r == Ok(true) <==> forall k :: 0 <= k < |Operators| ==> OperatorCheck(criterion.entries, Operators[k], value) == Ok(true))
    ensures criterion.PyDict? && r != Ok(true) ==>
              exists k :: 0 <= k < |Operators| && r == OperatorCheck(criterion.entries, Operators[k], value)
                && forall m :: 0 <= m < k ==> OperatorCheck(criterion.entries, Operators[m], value) == Ok(true)
    ensures r.Err? ==> r.kind == TypeError
  {
    if criterion.PyDict? then
      var checks := OperatorChecks(criterion.entries, value);
      FirstFailureFacts(checks);
      FirstFailure(checks)
    else Ok(PyEq(value, criterion))
  }

  /** The dictionary test unrolled: the six operators one after the other. */
  lemma CheckOneChain(value: Value, c: map<string, Value>)
    ensures CheckOne(value, PyDict(c)) ==
              AndThen(OperatorCheck(c, "eq", value),
              AndThen(OperatorCheck(c, "ne", value),
              AndThen(OperatorCheck(c, "gt", value),
              AndThen(OperatorCheck(c, "lt", value),
              AndThen(OperatorCheck(c, "in", value),
              AndThen(OperatorCheck(c, "contains", value), Ok(true)))))))
  {
    var checks := OperatorChecks(c, value);
    assert checks == [OperatorCheck(c, "eq", value), OperatorCheck(c, "ne", value), OperatorCheck(c, "gt", value),
                      OperatorCheck(c, "lt", value), OperatorCheck(c, "in", value), OperatorCheck(c, "contains", value)];
    var tail := checks;
    assert FirstFailure(tail) == AndThen(tail[0], FirstFailure(tail[1..]));
    tail := tail[1..];
    assert FirstFailure(tail) == AndThen(tail[0], FirstFailure(tail[1..]));
    tail := tail[1..];
    assert FirstFailure(tail) == AndThen(tail[0], FirstFailure(tail[1..]));
    tail := tail[1..];
    assert FirstFailure(tail) == AndThen(tail[0], FirstFailure(tail[1..]));
    tail := tail[1..];
    assert FirstFailure(tail) == AndThen(tail[0], FirstFailure(tail[1..]));
    tail := tail[1..];
    assert FirstFailure(tail) == AndThen(tail[0], FirstFailure(tail[1..]));
    assert tail[1..] == [];
  }

  /** The outcome of one (field, criterion) pair: an absent field fails. */
  function CriterionOutcome(item: Record, criterion: (string, Value)): Result<bool>
    requires IntegralRecord(item)
  {
    if criterion.0 !in item then Ok(false)
    else CheckOne(ConvertValueIfNumeric(item[criterion.0]), criterion.1)
  }

  /** The outcomes of all criteria, in order. */
  function CriterionOutcomes(item: Record, criteria: Criteria): (checks: seq<Result<bool>>)
    requires IntegralRecord(item)
    ensures |checks| == |criteria|
    ensures forall i :: 0 <= i < |criteria| ==> checks[i] == CriterionOutcome(item, criteria[i])
  {
    seq(|criteria|, i requires 0 <= i < |criteria| => CriterionOutcome(item, criteria[i]))
  }

  /** The criteria in order, the first that does not pass deciding. */
  function Decide(item: Record, criteria: Criteria): Result<bool>
    requires IntegralRecord(item)
  {
    FirstFailure(CriterionOutcomes(item, criteria))
  }

  /** An item passes exactly when every criterion passes; otherwise the
      outcome is that of the first criterion that does not pass. So no
      criteria accept everything and an absent field rejects. */
  lemma DecideFirst(item: Record, criteria: Criteria)
    requires IntegralRecord(item)
    ensures Decide(item, criteria) == Ok(true)
        <==> forall i :: 0 <= i < |criteria| ==> CriterionOutcome(item, criteria[i]) == Ok(true)
    ensures Decide(item, criteria) != Ok(true) ==>
              exists i :: 0 <= i < |criteria| && Decide(item, criteria) == CriterionOutcome(item, criteria[i])
                && forall m :: 0 <= m < i ==> CriterionOutcome(item, criteria[m]) == Ok(true)
    ensures criteria == [] ==> Decide(item, criteria) == Ok(true)
    ensures (exists i :: 0 <= i < |criteria| && criteria[i].0 !in item) ==> Decide(item, criteria) != Ok(true)
  {
    var checks := CriterionOutcomes(item, criteria);
    FirstFailureFacts(checks);
    if Decide(item, criteria) != Ok(true) {
      var i :| 0 <= i < |checks| && FirstFailure(checks) == checks[i] && forall m :: 0 <= m < i ==> checks[m] == Ok(true);
      assert Decide(item, criteria) == CriterionOutcome(item, criteria[i]);
    }
  }

  /** The operator tests of check_filter_criteria for one criterion
      dictionary c, in the order eq, ne, gt, lt, in, contains, stopping at the
      first that does not pass; Ok(true) when all pass. */
  method CheckCriterionDict(value: Value, c: map<string, Value>) returns (r: Result<bool>)
    ensures r == CheckOne(value, PyDict(c))
  {
    CheckOneChain(value, c);
    if "eq" in c && !PyEq(value, c["eq"]) {
      assert OperatorCheck(c, "eq", value) == Ok(false);
      return Ok(false);
    }
    assert OperatorCheck(c, "eq", value) == Ok(true);
    if "ne" in c && PyEq(value, c["ne"]) {
      assert OperatorCheck(c, "ne", value) == Ok(false);
      return Ok(false);
    }
    assert OperatorCheck(c, "ne", value) == Ok(true);
    if "gt" in c {
      if !IsNumber(value) {
        return Ok(false);
      }
      var greater := Compare(">", value, c["gt"]);
      assert OperatorCheck(c, "gt", value) == greater;
      if greater != Ok(true) {
        return greater;
      }
    }
    assert OperatorCheck(c, "gt", value) == Ok(true);
    if "lt" in c {
      if !IsNumber(value) {
        return Ok(false);
      }
      var less := Compare("<", value, c["lt"]);
      assert OperatorCheck(c, "lt", value) == less;
      if less != Ok(true) {
        return less;
      }
    }
    assert OperatorCheck(c, "lt", value) == Ok(true);
    if "in" in c {
      var found := PyIn(value, c["in"]);
      assert OperatorCheck(c, "in", value) == found;
      if found != Ok(true) {
        return found;
      }
    }
    assert OperatorCheck(c, "in", value) == Ok(true);
    if "contains" in c {
      if !value.PyStr? {
        return Ok(false);
      }
      var contained := PyIn(c["contains"], value);
      assert OperatorCheck(c, "contains", value) == contained;
      if contained != Ok(true) {
        return contained;
      }
    }
    assert OperatorCheck(c, "contains", value) == Ok(true);
    return Ok(true);
  }

  /** check_filter_criteria: for each criterion in order, False for an absent
      field, then the operator tests of a criterion dictionary, or equality
      for any other criterion, returning at the first one that fails; True
      when none does. A Python TypeError raised by a test is the Err. */
  method CheckFilterCriteria(item: Record, criteria: Criteria) returns (r: Result<bool>)
    requires IntegralRecord(item)
    ensures r == Decide(item, criteria)
  {
    ghost var checks := CriterionOutcomes(item, criteria);
    for i := 0 to |criteria|
      invariant forall m :: 0 <= m < i ==> checks[m] == Ok(true)
    {
      FirstFailureAt(checks, i);
      var (field, criterion) := criteria[i];
      if field !in item {
        return Ok(false);
      }
      var value := ConvertValueIfNumeric(item[field]);
      if criterion.PyDict? {
        var outcome := CheckCriterionDict(value, criterion.entries);
        if outcome != Ok(true) {
          return outcome;
        }
      } else if !PyEq(value, criterion) {
        return Ok(false);
      }
    }
    FirstFailureFacts(checks);
    return Ok(true);
  }

  // ----- apply_filtering -----

  /** The records check_filter_criteria accepts. */
  function Passes(criteria: Criteria): Record -> bool
  {
    item => IntegralRecord(item) && Decide(item, criteria) == Ok(true)
  }

  /** apply_filtering: the data and no statistics for empty criteria;
      otherwise the records that pass, in their original order, with the
      number kept and the number examined. The first record whose check
      raises makes the whole call raise. */
  method ApplyFiltering(data: seq<Record>, criteria: Criteria) returns (r: Result<(seq<Record>, map<string, int>)>)
    requires forall i :: 0 <= i < |data| ==> IntegralRecord(data[i])
    ensures criteria == [] ==> r == Ok((data, map[]))
    ensures criteria != [] ==> (r.Err? <==> exists i :: 0 <= i < |data| && Decide(data[i], criteria).Err?)
    ensures r.Err? ==> exists i :: 0 <= i < |data| && Decide(data[i], criteria) == Err(r.kind, r.message)
                          && forall m :: 0 <= m < i ==> Decide(data[m], criteria).Ok?
    ensures criteria != [] && r.Ok? ==> r.value.0 == Filter(data, Passes(criteria))
    ensures criteria != [] && r.Ok? ==> r.value.1 == map["filtered_count" := |r.value.0|, "original_count" := |data|]
  {
    if criteria == [] {
      return Ok((data, map[]));
    }
    var filtered := [];
    for i := 0 to |data|
      invariant filtered == Filter(data[..i], Passes(criteria))
      invariant forall m :: 0 <= m < i ==> Decide(data[m], criteria).Ok?
    {
      var passes := CheckFilterCriteria(data[i], criteria);
      if passes.Err? {
        ghost var d := Decide(data[i], criteria);
        assert d == Err(passes.kind, passes.message) && d.Err?;
        assert forall m :: 0 <= m < i ==> Decide(data[m], criteria).Ok?;
        return Err(passes.kind, passes.message);
      }
      PassStep(data, criteria, i, filtered, passes.value);
      assert forall m :: 0 <= m < i + 1 ==> Decide(data[m], criteria).Ok? by {
        forall m | 0 <= m < i + 1 ensures Decide(data[m], criteria).Ok? {
          if m == i { assert Decide(data[m], criteria) == passes; }
        }
      }
      if passes.value {
        filtered := filtered + [data[i]];
      }
    }
    assert data[..|data|] == data;
    assert !exists m :: 0 <= m < |data| && Decide(data[m], criteria).Err?;
    return Ok((filtered, map["filtered_count" := |filtered|, "original_count" := |data|]));
  }

  /** One step of apply_filtering: the record passes exactly when its check
      returns True, and then it is appended. */
  lemma PassStep(data: seq<Record>, criteria: Criteria, i: int, filtered: seq<Record>, passes: bool)
    requires 0 <= i < |data| && IntegralRecord(data[i])
    requires filtered == Filter(data[..i], Passes(criteria))
    requires Decide(data[i], criteria) == Ok(passes)
    ensures Filter(data[..i + 1], Passes(criteria)) == if passes then filtered + [data[i]] else filtered
  {
    var p := Passes(criteria);
    FilterSnoc(data, i, p);
    assert p(data[i]) <==> passes;
    if !passes {
      assert Filter(data[..i + 1], p) == filtered + [];
    }
  }

  /** The records kept are exactly the input records that pass, and never more
      than the input. */
  lemma FilteringKeepsPassing(data: seq<Record>, criteria: Criteria)
    ensures forall item :: item in Filter(data, Passes(criteria)) <==> item in data && Passes(criteria)(item)
    ensures |Filter(data, Passes(criteria))| <= |data|
  {
    FilterMembers(data, Passes(criteria));
  }

  // ----- compute_field_types and compute_overall_statistics -----

  /** The entry of compute_field_types for one key. */
  datatype FieldInfo = FieldInfo(typeName: string, count: nat)

  /** Counting the keys in done of item into m: a new key gets the type of its
      value and count 1, a known key keeps its type and counts one more. */
  function AddKeys(m: map<string, FieldInfo>, item: Record, done: set<string>): map<string, FieldInfo>
    requires done <= item.Keys
  {
    map k | k in m.Keys + done ::
      if k !in done then m[k]
      else if k in m then FieldInfo(m[k].typeName, m[k].count + 1)
      else FieldInfo(TypeName(item[k]), 1)
  }

  /** The field types of all records, counted record after record. */
  function FieldTypes(data: seq<Record>): map<string, FieldInfo>
  {
    if data == [] then map[]
    else AddKeys(FieldTypes(data[..|data| - 1]), data[|data| - 1], data[|data| - 1].Keys)
  }

  /** The predicate "has key k", shared so that filters by it compare equal. */
  function HasField(k: string): Record -> bool
  {
    item => k in item
  }

  /** The field types hold one entry per key of some record; its count is the
      number of records holding the key and its type that of the key's value in
      the first such record. */
  lemma FieldTypesFacts(data: seq<Record>, k: string)
    ensures k in FieldTypes(data) <==> exists i :: 0 <= i < |data| && k in data[i]
    ensures k in FieldTypes(data) ==> FieldTypes(data)[k].count == |Filter(data, HasField(k))|
    ensures k in FieldTypes(data) ==>
              exists i :: 0 <= i < |data| && k in data[i] && FieldTypes(data)[k].typeName == TypeName(data[i][k])
                && forall m :: 0 <= m < i ==> k !in data[m]
  {
    FieldTypesMembers(data, k);
    FieldTypesCount(data, k);
    FieldTypesFirstType(data, k);
  }

  /** Counting all keys of item: the entry of k is new, one more or unchanged. */
  lemma AddKeysAt(m: map<string, FieldInfo>, item: Record, k: string)
    ensures k in AddKeys(m, item, item.Keys) <==> k in m || k in item
    ensures k in item && k in m ==> AddKeys(m, item, item.Keys)[k] == FieldInfo(m[k].typeName, m[k].count + 1)
    ensures k in item && k !in m ==> AddKeys(m, item, item.Keys)[k] == FieldInfo(TypeName(item[k]), 1)
    ensures k !in item && k in m ==> AddKeys(m, item, item.Keys)[k] == m[k]
  {
  }

  /** Some record holds the key k. */
  predicate SomeHasKey(data: seq<Record>, k: string)
  {
    exists i :: 0 <= i < |data| && k in data[i]
  }

  /** A record holds k exactly when one of the earlier records or the last one does. */
  lemma SomeHasKeySnoc(data: seq<Record>, k: string)
    requires data != []
    ensures SomeHasKey(data, k) <==> SomeHasKey(data[..|data| - 1], k) || k in data[|data| - 1]
  {
    var init := data[..|data| - 1];
    if SomeHasKey(data, k) {
      var i :| 0 <= i < |data| && k in data[i];
      if i < |init| { assert init[i] == data[i]; }
    }
    if SomeHasKey(init, k) {
      var i :| 0 <= i < |init| && k in init[i];
      assert init[i] == data[i];
    }
  }

  /** The field types hold an entry for k exactly when some record has k. */
  lemma {:induction false} FieldTypesMembers(data: seq<Record>, k: string)
    ensures k in FieldTypes(data) <==> exists i :: 0 <= i < |data| && k in data[i]
  {
    if data != [] {
      var init, last := data[..|data| - 1], data[|data| - 1];
      assert FieldTypes(data) == AddKeys(FieldTypes(init), last, last.Keys);
      FieldTypesMembers(init, k);
      AddKeysAt(FieldTypes(init), last, k);
      SomeHasKeySnoc(data, k);
    }
  }

  /** The count of k is the number of records holding k. */
  lemma {:induction false} FieldTypesCount(data: seq<Record>, k: string)
    ensures k in FieldTypes(data) ==> FieldTypes(data)[k].count == |Filter(data, HasField(k))|
  {
    if data != [] {
      var init, last := data[..|data| - 1], data[|data| - 1];
      var before := FieldTypes(init);
      var p := HasField(k);
      assert FieldTypes(data) == AddKeys(before, last, last.Keys);
      assert Filter(data, p) == Filter(init, p) + (if p(last) then [last] else []);
      assert p(last) <==> k in last;
      FieldTypesCount(init, k);
      AddKeysAt(before, last, k);
      if k in last && k !in before {
        FieldTypesMembers(init, k);
        assert forall j :: 0 <= j < |init| ==> !p(init[j]);
        FilterExtremes(init, p);
      }
    }
  }

  /** The type of k is that of its value in the first record holding k. */
  lemma {:induction false} FieldTypesFirstType(data: seq<Record>, k: string)
    ensures k in FieldTypes(data) ==>
              exists i :: 0 <= i < |data| && k in data[i] && FieldTypes(data)[k].typeName == TypeName(data[i][k])
                && forall m :: 0 <= m < i ==> k !in data[m]
  {
    if data != [] {
      var init, last := data[..|data| - 1], data[|data| - 1];
      var before := FieldTypes(init);
      assert FieldTypes(data) == AddKeys(before, last, last.Keys);
      FieldTypesFirstType(init, k);
      AddKeysAt(before, last, k);
      if k in before {
        var i :| 0 <= i < |init| && k in init[i] && before[k].typeName == TypeName(init[i][k])
                 && forall m :: 0 <= m < i ==> k !in init[m];
        assert init[i] == data[i];
        assert forall m :: 0 <= m < i ==> k !in data[m] by {
          forall m | 0 <= m < i ensures k !in data[m] { assert init[m] == data[m]; }
        }
      } else if k in last {
        FieldTypesMembers(init, k);
        assert forall m :: 0 <= m < |data| - 1 ==> k !in data[m] by {
          forall m | 0 <= m < |data| - 1 ensures k !in data[m] { assert init[m] == data[m]; }
        }
      }
    }
  }

  /** The keys of the field types are the union of the record keys. */
  lemma FieldTypesKeys(data: seq<Record>)
    ensures FieldTypes(data).Keys == Records.AllKeys(data)
  {
    forall k ensures k in FieldTypes(data) <==> k in Records.AllKeys(data) {
      FieldTypesFacts(data, k);
    }
  }

  /** One step of the inner loop: counting one more key k. */
  lemma AddKeysStep(m: map<string, FieldInfo>, item: Record, done: set<string>, k: string)
    requires done <= item.Keys && k in item && k !in done
    ensures AddKeys(m, item, done + {k}) ==
              (var cur := AddKeys(m, item, done);
               if k !in cur then cur[k := FieldInfo(TypeName(item[k]), 1)]
               else cur[k := FieldInfo(cur[k].typeName, cur[k].count + 1)])
  {
  }

  /** compute_field_types: each key of each record either starts an entry
      with the type of its value and count 1 or counts one more. */
  method ComputeFieldTypes(data: seq<Record>) returns (fieldTypes: map<string, FieldInfo>)
    ensures fieldTypes == FieldTypes(data)
  {
    fieldTypes := map[];
    for i := 0 to |data|
      invariant fieldTypes == FieldTypes(data[..i])
    {
      assert data[..i + 1][..i] == data[..i];
      assert data[..i + 1][i] == data[i];
      fieldTypes := CountRecordKeys(fieldTypes, data[i]);
    }
    assert data[..|data|] == data;
  }

  /** The inner loop of compute_field_types over the keys of one record. */
  method CountRecordKeys(m: map<string, FieldInfo>, item: Record) returns (fieldTypes: map<string, FieldInfo>)
    ensures fieldTypes == AddKeys(m, item, item.Keys)
  {
    fieldTypes := m;
    var rest := item.Keys;
    assert AddKeys(m, item, {}) == m;
    assert item.Keys - rest == {};
    while rest != {}
      invariant rest <= item.Keys
      invariant fieldTypes == AddKeys(m, item, item.Keys - rest)
      decreases rest
    {
      var key :| key in rest;
      ghost var done := item.Keys - rest;
      TakeOne(item.Keys, rest, key);
      AddKeysStep(m, item, done, key);
      if key !in fieldTypes {
        fieldTypes := fieldTypes[key := FieldInfo(TypeName(item[key]), 1)];
      } else {
        fieldTypes := fieldTypes[key := FieldInfo(fieldTypes[key].typeName, fieldTypes[key].count + 1)];
      }
      rest := rest - {key};
    }
    assert item.Keys - rest == item.Keys;
  }

  /** The statistics of compute_overall_statistics. */
  datatype OverallStats = OverallStats(fieldTypes: map<string, FieldInfo>, recordCount: nat, fieldCount: nat)

  /** compute_overall_statistics: nothing ({}) when statistics are disabled or
      there are no records; otherwise the field types, the number of records
      and the number of distinct keys. */
  function ComputeOverallStatistics(data: seq<Record>, includeStats: bool): (r: Option<OverallStats>)
    ensures r.None? <==> !includeStats || data == []
    ensures r.Some? ==> r.value.fieldTypes == FieldTypes(data) && r.value.recordCount == |data|
    ensures r.Some? ==> r.value.fieldCount == |Records.AllKeys(data)|
    ensures r.Some? ==> (r.value.fieldCount == 0 <==> forall i :: 0 <= i < |data| ==> data[i] == map[])
  {
    FieldTypesKeys(data);
    if !includeStats || data == [] then None
    else
      var fieldTypes := FieldTypes(data);
      Some(OverallStats(fieldTypes, |data|, |fieldTypes|))
  }
}
