/** python/refactoring_source.py: the flat key remapping of one record and
    the summary statistics of a list of records.

    process_data collects the int fields of every record in dictionary
    order; the statistics kept here (minimum, maximum, sum and count) do not
    depend on that order, so the collected values are specified as a
    multiset. Floats, and with them the mean and the median, are not
    modelled.
 */
module PyRefactoringSource {
  import opened Outcomes
  import opened PyValues
  import opened SeqSpecs
  import Records

  // ----- transform_data_structure -----

  /** transform_data_structure: the mapped keys in mapping order, then every
      field whose key the mapping does not mention. The data record is a
      value, so it is not changed. */
  method TransformDataStructure(data: Record, mapping: Records.Mapping) returns (result: Record)
    requires Records.IsMapping(mapping)
    ensures result == Records.RemapRecord(data, mapping)
    ensures forall k :: k in data && k !in Records.OldKeys(mapping) ==> k in result && result[k] == data[k]
  {
    result := map[];
    for e := 0 to |mapping|
      invariant result == Records.MappedPart(data, mapping[..e])
    {
      assert mapping[..e + 1][..e] == mapping[..e];
      var (oldKey, newKey) := mapping[e];
      if oldKey in data {
        result := result[newKey := data[oldKey]];
      }
    }
    assert mapping[..|mapping|] == mapping;
    ghost var mapped := result;
    var oldKeys := Records.OldKeys(mapping);
    var rest := data.Keys;
    assert Records.Copied(data, rest, oldKeys) == map[];
    while rest != {}
      invariant rest <= data.Keys
      invariant result == mapped + Records.Copied(data, rest, oldKeys)
      decreases rest
    {
      var key :| key in rest;
      Records.CopyStep(mapped, data, rest, oldKeys, key);
      if key !in oldKeys {
        result := result[key := data[key]];
      }
      rest := rest - {key};
    }
    assert Records.Copied(data, {}, oldKeys) == Records.Unmapped(data, mapping);
  }

  /** A mapped old key disappears under its old name unless an entry maps
      some present key onto it. */
  lemma MappedOldKeyDropped(data: Record, mapping: Records.Mapping, k: string)
    requires k in Records.OldKeys(mapping)
    requires forall i :: 0 <= i < |mapping| && mapping[i].0 in data ==> mapping[i].1 != k
    ensures k !in Records.RemapRecord(data, mapping)
  {
    Records.RemapKeys(data, mapping, k);
  }

  // ----- process_data -----

  /** What one field contributes to numeric_values: an int, but not a bool. */
  function IntOf(v: Value): (m: multiset<int>)
    ensures |m| <= 1
    ensures v.PyBool? ==> m == multiset{}
  {
    if v.PyInt? then multiset{v.i} else multiset{}
  }

  /** The int fields of r under the given keys, in no particular order. */
  ghost function IntFields(r: Record, keys: set<string>): multiset<int>
    requires keys <= r.Keys
    decreases |keys|
  {
    if keys == {} then multiset{}
    else
      var k :| k in keys;
      IntFields(r, keys - {k}) + IntOf(r[k])
  }

  /** The int fields can be collected with any key first. */
  lemma {:induction false} IntFieldsRemove(r: Record, keys: set<string>, k: string)
    requires keys <= r.Keys && k in keys
    ensures IntFields(r, keys) == IntFields(r, keys - {k}) + IntOf(r[k])
    decreases |keys|
  {
    var j :| j in keys && IntFields(r, keys) == IntFields(r, keys - {j}) + IntOf(r[j]);
    if j != k {
      RemoveTwoKeys(keys, j, k);
      IntFieldsRemove(r, keys - {j}, k);
      IntFieldsRemove(r, keys - {k}, j);
    }
  }

  /** Removing two different keys in either order leaves the same set. */
  lemma RemoveTwoKeys(keys: set<string>, j: string, k: string)
    requires j in keys && k in keys && j != k
    ensures k in keys - {j} && j in keys - {k}
    ensures keys - {j} - {k} == keys - {k} - {j}
  {
  }

  /** An int is among the int fields exactly when some key holds it. */
  lemma {:induction false} IntFieldsMembers(r: Record, keys: set<string>, x: int)
    requires keys <= r.Keys
    ensures x in IntFields(r, keys) <==> exists k :: k in keys && r[k] == PyInt(x)
    decreases |keys|
  {
    if keys != {} {
      var k :| k in keys;
      IntFieldsRemove(r, keys, k);
      IntFieldsMembers(r, keys - {k}, x);
    }
  }

  /** numeric_values, as a multiset: the int fields of every record. */
  ghost function IntValues(data: seq<Record>): multiset<int>
  {
    if data == [] then multiset{}
    else IntValues(data[..|data| - 1]) + IntFields(data[|data| - 1], data[|data| - 1].Keys)
  }

  /** numeric_values holds exactly the ints stored in some field of some
      record; booleans, strings and the rest are left out. */
  lemma {:induction false} IntValuesMembers(data: seq<Record>, x: int)
    ensures x in IntValues(data) <==> exists i, k :: 0 <= i < |data| && k in data[i] && data[i][k] == PyInt(x)
  {
    if data != [] {
      var init, last := data[..|data| - 1], data[|data| - 1];
      assert IntValues(data) == IntValues(init) + IntFields(last, last.Keys);
      IntValuesMembers(init, x);
      IntFieldsMembers(last, last.Keys, x);
      HoldsIntSnoc(data, x);
    }
  }

  /** Some field of r holds the int x. */
  predicate RecordHolds(r: Record, x: int)
  {
    exists k :: k in r && r[k] == PyInt(x)
  }

  /** Some field of some record holds the int x. */
  predicate SomeRecordHolds(data: seq<Record>, x: int)
  {
    exists i, k :: 0 <= i < |data| && k in data[i] && data[i][k] == PyInt(x)
  }

  /** Some record holds x exactly when one of the earlier records or the last
      one does. */
  lemma HoldsIntSnoc(data: seq<Record>, x: int)
    requires data != []
    ensures SomeRecordHolds(data, x) <==>
              SomeRecordHolds(data[..|data| - 1], x) || RecordHolds(data[|data| - 1], x)
  {
    var init := data[..|data| - 1];
    if SomeRecordHolds(data, x) {
      var i, k :| 0 <= i < |data| && k in data[i] && data[i][k] == PyInt(x);
      if i < |init| {
        assert init[i] == data[i];
        assert k in init[i] && init[i][k] == PyInt(x);
      }
    }
    if SomeRecordHolds(init, x) {
      var i, k :| 0 <= i < |init| && k in init[i] && init[i][k] == PyInt(x);
      assert init[i] == data[i];
    }
  }

  /** The numeric_stats of process_data that do not involve division. */
  datatype NumericStats = NumericStats(min: int, max: int, sum: int, count: nat)

  /** The result of process_data: the count and has_data always, keys_found
      for non-empty data, numeric_stats when some int was found. */
  datatype DataSummary = DataSummary(count: nat, hasData: bool, keysFound: Option<set<string>>, numericStats: Option<NumericStats>)

  /** process_data: {"count": 0, "has_data": False} for no records; otherwise
      the record count, the union of the keys and, when some field holds an
      int, the minimum, maximum, sum and number of all such ints. */
  method ProcessData(data: seq<Record>) returns (summary: DataSummary)
    ensures data == [] ==> summary == DataSummary(0, false, None, None)
    ensures data != [] ==> summary.count == |data| && summary.hasData && summary.keysFound == Some(Records.AllKeys(data))
    ensures data != [] ==> (summary.numericStats.Some? <==> |IntValues(data)| > 0)
    ensures summary.numericStats.Some? ==> StatsOf(summary.numericStats.value, IntValues(data))
  {
    if data == [] {
      return DataSummary(0, false, None, None);
    }
    var numericValues: seq<int> := [];
    for i := 0 to |data|
      invariant multiset(numericValues) == IntValues(data[..i])
    {
      assert data[..i + 1][..i] == data[..i] && data[..i + 1][i] == data[i];
      var values := CollectIntFields(data[i]);
      numericValues := numericValues + values;
    }
    assert data[..|data|] == data;
    var keysFound := set i, k | 0 <= i < |data| && k in data[i] :: k;
    var stats: Option<NumericStats> := None;
    if |numericValues| > 0 {
      stats := Some(ComputeStats(numericValues));
    }
    summary := DataSummary(|data|, |data| > 0, Some(keysFound), stats);
  }

  /** st holds the minimum, maximum, sum and number of the ints in m. */
  ghost predicate StatsOf(st: NumericStats, m: multiset<int>)
  {
    st.min in m && st.max in m
    && (forall x :: x in m ==> st.min <= x <= st.max)
    && st.sum == MSum(m) && st.count == |m|
  }

  /** The inner loop of process_data: the int fields of one record, in
      whatever order its items come. */
  method CollectIntFields(item: Record) returns (values: seq<int>)
    ensures multiset(values) == IntFields(item, item.Keys)
  {
    values := [];
    var rest := item.Keys;
    assert item.Keys - rest == {};
    while rest != {}
      invariant rest <= item.Keys
      invariant multiset(values) == IntFields(item, item.Keys - rest)
      decreases rest
    {
      var key :| key in rest;
      ghost var done := item.Keys - rest;
      TakeOne(item.Keys, rest, key);
      IntFieldsRemove(item, done + {key}, key);
      assert done + {key} - {key} == done;
      if item[key].PyInt? {
        values := values + [item[key].i];
      }
      rest := rest - {key};
    }
    assert item.Keys - rest == item.Keys;
  }

  /** The statistics of numeric_values that do not involve division. */
  function ComputeStats(values: seq<int>): (st: NumericStats)
    requires |values| > 0
    ensures StatsOf(st, multiset(values))
  {
    SumIsMSum(values);
    NumericStats(Min(values), Max(values), Sum(values), |values|)
  }
}
