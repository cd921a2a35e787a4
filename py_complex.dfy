/** python/complex_functions.py: the Fibonacci list, and DataProcessor with
    its filter, sort, group-by and processed flag. */
module PyComplex {
  import opened Outcomes
  import MathSpecs
  import opened SeqSpecs
  import opened Sorting
  import opened PyValues

  /** fibonacci: [] for n <= 0, [0] for n == 1, and otherwise [0, 1] extended
      by the sum of its last two elements until it holds n of them. */
  method Fibonacci(n: int) returns (sequence: seq<int>)
    ensures MathSpecs.IsFibPrefix(sequence, if n <= 0 then 0 else n)
  {
    sequence := [0, 1];
    if n <= 0 {
      return [];
    }
    if n == 1 {
      return [0];
    }
    while |sequence| < n
      invariant 2 <= |sequence| <= n
      invariant MathSpecs.IsFibPrefix(sequence, |sequence|)
    {
      var nextValue := sequence[|sequence| - 1] + sequence[|sequence| - 2];
      sequence := sequence + [nextValue];
    }
  }

  // ----- filter_data and sort_data -----

  /** The test of filter_data: item.get(key) == value. */
  function Matches(key: string, value: Value): Record -> bool
  {
    item => PyEq(Get(item, key), value)
  }

  /** sorted() compares keys only when there are two items or more, and then
      every key must be comparable with every other: all numbers (int or bool)
      or all strings. */
  predicate SortableKeys(data: seq<Record>, key: string)
  {
    |data| < 2
    || (forall i :: 0 <= i < |data| ==> IsNumber(Get(data[i], key)))
    || (forall i :: 0 <= i < |data| ==> Get(data[i], key).PyStr?)
  }

  /** The sort key of an item: x.get(key) as a number or a string. Any other
      value only occurs when there is a single item, which is never compared. */
  function SortKey(key: string): Record -> Key
  {
    item =>
      var v := Get(item, key);
      if IsNumber(v) then NumKey(NumValue(v)) else if v.PyStr? then StrKey(v.s) else NumKey(0)
  }

  // ----- aggregate_data -----

  /** One entry of the result dictionary: the key object first inserted, and
      the values appended under it. */
  datatype Group = Group(key: Value, values: seq<Value>)

  predicate KeysHashable(groups: seq<Group>)
  {
    forall j :: 0 <= j < |groups| ==> Hashable(groups[j].key)
  }

  /** No two entries share a dictionary key. */
  predicate DistinctKeys(groups: seq<Group>)
    requires KeysHashable(groups)
  {
    forall j1, j2 :: 0 <= j1 < j2 < |groups| ==> HashKeyOf(groups[j1].key) != HashKeyOf(groups[j2].key)
  }

  /** The dictionary keys of the entries. */
  function GroupKeys(groups: seq<Group>): set<HashKey>
    requires KeysHashable(groups)
  {
    set j | 0 <= j < |groups| :: HashKeyOf(groups[j].key)
  }

  /** The dictionary keys of the group_by values of data. */
  function SeenKeys(data: seq<Record>, groupBy: string): set<HashKey>
    requires forall i :: 0 <= i < |data| ==> Hashable(Get(data[i], groupBy))
  {
    set i | 0 <= i < |data| :: HashKeyOf(Get(data[i], groupBy))
  }

  /** The item belongs to the group of hk and has a value to contribute. */
  function Contributes(groupBy: string, field: string, hk: HashKey): Record -> bool
  {
    item => Hashable(Get(item, groupBy)) && HashKeyOf(Get(item, groupBy)) == hk && Get(item, field) != PyNone
  }

  /** item.get(field) */
  function FieldOf(field: string): Record -> Value
  {
    item => Get(item, field)
  }

  /** The item has a value other than None under field. */
  function HasField(field: string): Record -> bool
  {
    item => Get(item, field) != PyNone
  }

  /** The reference contents of a group: the non-None values of its items, in data order. */
  function GroupValues(data: seq<Record>, groupBy: string, field: string, hk: HashKey): seq<Value>
  {
    MapSeq(Filter(data, Contributes(groupBy, field, hk)), FieldOf(field))
  }

  /** The total number of values in all groups. */
  function Total(groups: seq<Group>): nat
  {
    if groups == [] then 0 else Total(groups[..|groups| - 1]) + |groups[|groups| - 1].values|
  }

  /** `key in result`: the index of the entry with dictionary key hk, or -1. */
  function FindGroup(groups: seq<Group>, hk: HashKey): (j: int)
    requires KeysHashable(groups)
    ensures -1 <= j < |groups|
    ensures j >= 0 ==> HashKeyOf(groups[j].key) == hk
    ensures j < 0 ==> hk !in GroupKeys(groups)
  {
    if groups == [] then -1
    else if HashKeyOf(groups[|groups| - 1].key) == hk then |groups| - 1
    else FindGroup(groups[..|groups| - 1], hk)
  }

  /** groups is the result of aggregating data: every group_by value is
      hashable, the entries have distinct keys, which are exactly the keys seen,
      each entry holds the reference contents of its group, and the entries
      hold as many values as there are items with a non-None value. */
  predicate Aggregated(data: seq<Record>, groupBy: string, field: string, groups: seq<Group>)
  {
    (forall m :: 0 <= m < |data| ==> Hashable(Get(data[m], groupBy)))
    && KeysHashable(groups) && DistinctKeys(groups)
    && GroupKeys(groups) == SeenKeys(data, groupBy)
    && (forall j :: 0 <= j < |groups| ==>
          groups[j].values == GroupValues(data, groupBy, field, HashKeyOf(groups[j].key)))
    && Total(groups) == |Filter(data, HasField(field))|
  }

  /** One iteration of the loop: create the entry of key when it is missing,
      then append value to it unless value is None. */
  function AddItem(groups: seq<Group>, key: Value, value: Value): seq<Group>
    requires KeysHashable(groups) && Hashable(key)
  {
    var j := FindGroup(groups, HashKeyOf(key));
    var gs := if j < 0 then groups + [Group(key, [])] else groups;
    var j' := if j < 0 then |groups| else j;
    if value != PyNone then gs[j' := Group(gs[j'].key, gs[j'].values + [value])] else gs
  }

  /** One more item extends exactly its own group, when its value is not None. */
  lemma GroupValuesAppend(data: seq<Record>, item: Record, groupBy: string, field: string, hk: HashKey)
    ensures GroupValues(data + [item], groupBy, field, hk)
         == GroupValues(data, groupBy, field, hk)
            + (if Contributes(groupBy, field, hk)(item) then [Get(item, field)] else [])
  {
    assert (data + [item])[..|data|] == data;
  }

  /** A key no item has produced has no values yet. */
  lemma GroupValuesUnseen(data: seq<Record>, groupBy: string, field: string, hk: HashKey)
    requires forall i :: 0 <= i < |data| ==> Hashable(Get(data[i], groupBy))
    requires hk !in SeenKeys(data, groupBy)
    ensures GroupValues(data, groupBy, field, hk) == []
  {
    forall k | 0 <= k < |data|
      ensures !Contributes(groupBy, field, hk)(data[k])
    {
      assert HashKeyOf(Get(data[k], groupBy)) in SeenKeys(data, groupBy);
    }
    FilterExtremes(data, Contributes(groupBy, field, hk));
  }

  /** Appending a value to one group raises the total by one. */
  lemma {:induction false} TotalAppend(groups: seq<Group>, j: int, x: Value)
    requires 0 <= j < |groups|
    ensures Total(groups[j := Group(groups[j].key, groups[j].values + [x])]) == Total(groups) + 1
  {
    var g' := groups[j := Group(groups[j].key, groups[j].values + [x])];
    var n := |groups|;
    if j < n - 1 {
      assert g'[..n - 1] == groups[..n - 1][j := Group(groups[j].key, groups[j].values + [x])];
      TotalAppend(groups[..n - 1], j, x);
    } else {
      assert g'[..n - 1] == groups[..n - 1];
    }
  }

  /** A new empty group leaves the total unchanged. */
  lemma TotalAddEmpty(groups: seq<Group>, key: Value)
    ensures Total(groups + [Group(key, [])]) == Total(groups)
  {
    assert (groups + [Group(key, [])])[..|groups|] == groups;
  }

  /** The keys seen grow by the key of the next item. */
  lemma SeenKeysAppend(data: seq<Record>, item: Record, groupBy: string)
    requires forall m :: 0 <= m < |data| ==> Hashable(Get(data[m], groupBy))
    requires Hashable(Get(item, groupBy))
    ensures SeenKeys(data + [item], groupBy) == SeenKeys(data, groupBy) + {HashKeyOf(Get(item, groupBy))}
  {
    var a := data + [item];
    assert a[|data|] == item;
    forall hk | hk in SeenKeys(data, groupBy)
      ensures hk in SeenKeys(a, groupBy)
    {
      var m :| 0 <= m < |data| && HashKeyOf(Get(data[m], groupBy)) == hk;
      assert a[m] == data[m];
    }
  }

  /** The entries after the first step of AddItem: key's entry, created empty
      when it was missing. */
  function WithEntry(groups: seq<Group>, key: Value): seq<Group>
    requires KeysHashable(groups) && Hashable(key)
  {
    if FindGroup(groups, HashKeyOf(key)) < 0 then groups + [Group(key, [])] else groups
  }

  /** The index of key's entry in WithEntry. */
  function EntryIndex(groups: seq<Group>, key: Value): (j: nat)
    requires KeysHashable(groups) && Hashable(key)
    ensures j < |WithEntry(groups, key)|
    ensures HashKeyOf(WithEntry(groups, key)[j].key) == HashKeyOf(key)
  {
    var j := FindGroup(groups, HashKeyOf(key));
    if j < 0 then |groups| else j
  }

  /** AddItem is WithEntry followed by the append at EntryIndex. */
  lemma AddItemSteps(groups: seq<Group>, key: Value, value: Value)
    requires KeysHashable(groups) && Hashable(key)
    ensures var gs := WithEntry(groups, key);
            var j := EntryIndex(groups, key);
            AddItem(groups, key, value)
              == if value != PyNone then gs[j := Group(gs[j].key, gs[j].values + [value])] else gs
  {
  }

  /** WithEntry keeps the keys hashable and distinct, and adds key's key. */
  lemma WithEntryKeys(groups: seq<Group>, key: Value)
    requires KeysHashable(groups) && DistinctKeys(groups) && Hashable(key)
    ensures KeysHashable(WithEntry(groups, key)) && DistinctKeys(WithEntry(groups, key))
    ensures GroupKeys(WithEntry(groups, key)) == GroupKeys(groups) + {HashKeyOf(key)}
  {
    var gs := WithEntry(groups, key);
    if FindGroup(groups, HashKeyOf(key)) < 0 {
      assert gs[|groups|].key == key;
      forall hk | hk in GroupKeys(groups) ensures hk in GroupKeys(gs) {
        var m :| 0 <= m < |groups| && HashKeyOf(groups[m].key) == hk;
        assert gs[m] == groups[m];
      }
    }
  }

  /** AddItem keeps the keys hashable and distinct, and adds the item's key. */
  lemma AddItemKeys(groups: seq<Group>, key: Value, value: Value)
    requires KeysHashable(groups) && DistinctKeys(groups) && Hashable(key)
    ensures KeysHashable(AddItem(groups, key, value)) && DistinctKeys(AddItem(groups, key, value))
    ensures GroupKeys(AddItem(groups, key, value)) == GroupKeys(groups) + {HashKeyOf(key)}
  {
    WithEntryKeys(groups, key);
    AddItemSteps(groups, key, value);
    var gs := WithEntry(groups, key);
    var r := AddItem(groups, key, value);
    assert |r| == |gs| && forall m :: 0 <= m < |gs| ==> r[m].key == gs[m].key;
    assert GroupKeys(r) == GroupKeys(gs);
  }

  /** Each entry of WithEntry holds the reference contents of its group over data. */
  lemma WithEntryValues(data: seq<Record>, groupBy: string, field: string, groups: seq<Group>, key: Value)
    requires Aggregated(data, groupBy, field, groups) && Hashable(key)
    ensures forall m :: 0 <= m < |WithEntry(groups, key)| ==>
              WithEntry(groups, key)[m].values == GroupValues(data, groupBy, field, HashKeyOf(WithEntry(groups, key)[m].key))
  {
    if FindGroup(groups, HashKeyOf(key)) < 0 {
      GroupValuesUnseen(data, groupBy, field, HashKeyOf(key));
    }
  }

  /** WithEntry leaves the total unchanged. */
  lemma WithEntryTotal(groups: seq<Group>, key: Value)
    requires KeysHashable(groups) && Hashable(key)
    ensures Total(WithEntry(groups, key)) == Total(groups)
  {
    if FindGroup(groups, HashKeyOf(key)) < 0 {
      TotalAddEmpty(groups, key);
    }
  }

  /** After AddItem each entry holds the reference contents of its group over data + [item]. */
  lemma AddItemValues(data: seq<Record>, item: Record, groupBy: string, field: string, groups: seq<Group>)
    requires Aggregated(data, groupBy, field, groups)
    requires Hashable(Get(item, groupBy))
    ensures var r := AddItem(groups, Get(item, groupBy), Get(item, field));
            forall m :: 0 <= m < |r| ==> r[m].values == GroupValues(data + [item], groupBy, field, HashKeyOf(r[m].key))
  {
    var key := Get(item, groupBy);
    var value := Get(item, field);
    var gs := WithEntry(groups, key);
    var j := EntryIndex(groups, key);
    var r := AddItem(groups, key, value);
    WithEntryKeys(groups, key);
    WithEntryValues(data, groupBy, field, groups, key);
    AddItemSteps(groups, key, value);
    forall m | 0 <= m < |r|
      ensures r[m].values == GroupValues(data + [item], groupBy, field, HashKeyOf(r[m].key))
    {
      GroupValuesAppend(data, item, groupBy, field, HashKeyOf(gs[m].key));
      if m != j {
        assert HashKeyOf(gs[m].key) != HashKeyOf(key);
      }
    }
  }

  /** After AddItem the entries hold one value per item of data + [item] with a value. */
  lemma AddItemTotal(data: seq<Record>, item: Record, groupBy: string, field: string, groups: seq<Group>)
    requires Aggregated(data, groupBy, field, groups)
    requires Hashable(Get(item, groupBy))
    ensures Total(AddItem(groups, Get(item, groupBy), Get(item, field))) == |Filter(data + [item], HasField(field))|
  {
    var key := Get(item, groupBy);
    var value := Get(item, field);
    var gs := WithEntry(groups, key);
    var p := HasField(field);
    var a := data + [item];
    assert a[..|data|] == data && a[|data|] == item;
    assert Filter(a, p) == Filter(data, p) + (if p(item) then [item] else []);
    assert p(item) <==> value != PyNone;
    WithEntryTotal(groups, key);
    AddItemSteps(groups, key, value);
    if value != PyNone {
      TotalAppend(gs, EntryIndex(groups, key), value);
      assert |Filter(a, p)| == |Filter(data, p)| + 1;
    } else {
      assert Filter(a, p) == Filter(data, p) + [];
    }
  }

  /** AddItem turns the aggregation of data into the aggregation of data + [item]. */
  lemma AddItemAggregates(data: seq<Record>, item: Record, groupBy: string, field: string, groups: seq<Group>)
    requires Aggregated(data, groupBy, field, groups)
    requires Hashable(Get(item, groupBy))
    ensures Aggregated(data + [item], groupBy, field, AddItem(groups, Get(item, groupBy), Get(item, field)))
  {
    var a := data + [item];
    assert forall m :: 0 <= m < |a| ==> Hashable(Get(a[m], groupBy)) by {
      forall m | 0 <= m < |a| ensures Hashable(Get(a[m], groupBy)) {
        if m < |data| { assert a[m] == data[m]; }
      }
    }
    AddItemKeys(groups, Get(item, groupBy), Get(item, field));
    SeenKeysAppend(data, item, groupBy);
    AddItemValues(data, item, groupBy, field, groups);
    AddItemTotal(data, item, groupBy, field, groups);
  }

  /** The index of the first item whose group_by value has dictionary key hk,
      or -1 when no item has it. */
  function FirstSeen(data: seq<Record>, groupBy: string, hk: HashKey): (m: int)
    requires forall i :: 0 <= i < |data| ==> Hashable(Get(data[i], groupBy))
    ensures -1 <= m < |data|
    ensures m >= 0 ==> HashKeyOf(Get(data[m], groupBy)) == hk
    ensures forall i :: 0 <= i < |data| && (m < 0 || i < m) ==> HashKeyOf(Get(data[i], groupBy)) != hk
    decreases |data|
  {
    if data == [] then -1
    else
      var init := data[..|data| - 1];
      assert forall i :: 0 <= i < |init| ==> init[i] == data[i];
      var f := FirstSeen(init, groupBy, hk);
      if f >= 0 then f
      else if HashKeyOf(Get(data[|data| - 1], groupBy)) == hk then |data| - 1
      else -1
  }

  /** The entries are in the order in which their keys were first seen, and
      each keeps the group_by value of the item that first produced its key:
      a Python dict keeps its insertion order and the key object first
      inserted, so True stays the key when a later item has 1. */
  predicate FirstSeenOrder(data: seq<Record>, groupBy: string, groups: seq<Group>)
    requires forall i :: 0 <= i < |data| ==> Hashable(Get(data[i], groupBy))
    requires KeysHashable(groups)
  {
    (forall j :: 0 <= j < |groups| ==>
       var m := FirstSeen(data, groupBy, HashKeyOf(groups[j].key));
       m >= 0 && groups[j].key == Get(data[m], groupBy))
    && (forall j1, j2 :: 0 <= j1 < j2 < |groups| ==>
          FirstSeen(data, groupBy, HashKeyOf(groups[j1].key)) < FirstSeen(data, groupBy, HashKeyOf(groups[j2].key)))
  }

  /** The groups aggregate data and are in first-seen order. */
  predicate AggregatedInOrder(data: seq<Record>, groupBy: string, field: string, groups: seq<Group>)
  {
    Aggregated(data, groupBy, field, groups) && FirstSeenOrder(data, groupBy, groups)
  }

  /** One more item leaves the first sighting of a key already seen, and is
      the first sighting of its own key when that key is new. */
  lemma FirstSeenAppend(data: seq<Record>, item: Record, groupBy: string, hk: HashKey)
    requires forall i :: 0 <= i < |data| ==> Hashable(Get(data[i], groupBy))
    requires Hashable(Get(item, groupBy))
    ensures forall i :: 0 <= i < |data + [item]| ==> Hashable(Get((data + [item])[i], groupBy))
    ensures FirstSeen(data + [item], groupBy, hk)
         == if FirstSeen(data, groupBy, hk) >= 0 then FirstSeen(data, groupBy, hk)
            else if HashKeyOf(Get(item, groupBy)) == hk then |data| else -1
  {
    var a := data + [item];
    assert forall i :: 0 <= i < |a| ==> a[i] == if i < |data| then data[i] else item;
    assert a[..|a| - 1] == data;
  }

  /** AddItem keeps the entries in first-seen order, each with its first key
      object; a new entry goes last, with the item's key. */
  lemma AddItemOrder(data: seq<Record>, item: Record, groupBy: string, field: string, groups: seq<Group>)
    requires Aggregated(data, groupBy, field, groups)
    requires FirstSeenOrder(data, groupBy, groups)
    requires Hashable(Get(item, groupBy))
    ensures forall i :: 0 <= i < |data + [item]| ==> Hashable(Get((data + [item])[i], groupBy))
    ensures KeysHashable(AddItem(groups, Get(item, groupBy), Get(item, field)))
    ensures FirstSeenOrder(data + [item], groupBy, AddItem(groups, Get(item, groupBy), Get(item, field)))
  {
    var key := Get(item, groupBy);
    var a := data + [item];
    var r := AddItem(groups, key, Get(item, field));
    FirstSeenAppend(data, item, groupBy, HashKeyOf(key));
    AddItemKeys(groups, key, Get(item, field));
    AddItemSteps(groups, key, Get(item, field));
    WithEntryOrder(data, item, groupBy, field, groups);
    var gs := WithEntry(groups, key);
    assert |r| == |gs| && forall m :: 0 <= m < |gs| ==> r[m].key == gs[m].key;
    OrderByKeys(a, groupBy, gs, r);
  }

  /** The first-seen order depends on the keys of the entries alone. */
  lemma OrderByKeys(data: seq<Record>, groupBy: string, g1: seq<Group>, g2: seq<Group>)
    requires forall i :: 0 <= i < |data| ==> Hashable(Get(data[i], groupBy))
    requires KeysHashable(g1) && FirstSeenOrder(data, groupBy, g1)
    requires |g1| == |g2| && forall m :: 0 <= m < |g1| ==> g2[m].key == g1[m].key
    ensures KeysHashable(g2) && FirstSeenOrder(data, groupBy, g2)
  {
  }

  /** The entries of WithEntry are in first-seen order over data + [item]. */
  lemma WithEntryOrder(data: seq<Record>, item: Record, groupBy: string, field: string, groups: seq<Group>)
    requires Aggregated(data, groupBy, field, groups)
    requires FirstSeenOrder(data, groupBy, groups)
    requires Hashable(Get(item, groupBy))
    ensures forall i :: 0 <= i < |data + [item]| ==> Hashable(Get((data + [item])[i], groupBy))
    ensures KeysHashable(WithEntry(groups, Get(item, groupBy)))
    ensures FirstSeenOrder(data + [item], groupBy, WithEntry(groups, Get(item, groupBy)))
  {
    var key := Get(item, groupBy);
    var hk := HashKeyOf(key);
    var a := data + [item];
    FirstSeenAppend(data, item, groupBy, hk);
    WithEntryKeys(groups, key);
    forall j | 0 <= j < |groups|
      ensures FirstSeen(a, groupBy, HashKeyOf(groups[j].key)) == FirstSeen(data, groupBy, HashKeyOf(groups[j].key))
    {
      FirstSeenAppend(data, item, groupBy, HashKeyOf(groups[j].key));
    }
    if FindGroup(groups, hk) < 0 {
      FirstSeenIsSeen(data, groupBy, hk);
      NewEntryOrder(data, item, groupBy, groups);
    } else {
      OldEntriesOrder(data, item, groupBy, groups);
    }
  }

  /** A key with a first sighting has been seen. */
  lemma FirstSeenIsSeen(data: seq<Record>, groupBy: string, hk: HashKey)
    requires forall i :: 0 <= i < |data| ==> Hashable(Get(data[i], groupBy))
    ensures FirstSeen(data, groupBy, hk) >= 0 ==> hk in SeenKeys(data, groupBy)
  {
    var f := FirstSeen(data, groupBy, hk);
    if f >= 0 {
      assert HashKeyOf(Get(data[f], groupBy)) in SeenKeys(data, groupBy);
    }
  }

  /** The existing entries keep their first sightings over data + [item]. */
  lemma OldEntriesOrder(data: seq<Record>, item: Record, groupBy: string, groups: seq<Group>)
    requires forall i :: 0 <= i < |data + [item]| ==> Hashable(Get((data + [item])[i], groupBy))
    requires forall i :: 0 <= i < |data| ==> Hashable(Get(data[i], groupBy))
    requires KeysHashable(groups) && FirstSeenOrder(data, groupBy, groups)
    requires forall j :: 0 <= j < |groups| ==>
               FirstSeen(data + [item], groupBy, HashKeyOf(groups[j].key)) == FirstSeen(data, groupBy, HashKeyOf(groups[j].key))
    ensures FirstSeenOrder(data + [item], groupBy, groups)
  {
    var a := data + [item];
    forall j | 0 <= j < |groups|
      ensures groups[j].key == Get(a[FirstSeen(a, groupBy, HashKeyOf(groups[j].key))], groupBy)
    {
      assert a[FirstSeen(data, groupBy, HashKeyOf(groups[j].key))] == data[FirstSeen(data, groupBy, HashKeyOf(groups[j].key))];
    }
  }

  /** A new entry for the item's unseen key goes after the existing ones,
      whose first sightings all lie in data. */
  lemma NewEntryOrder(data: seq<Record>, item: Record, groupBy: string, groups: seq<Group>)
    requires forall i :: 0 <= i < |data + [item]| ==> Hashable(Get((data + [item])[i], groupBy))
    requires forall i :: 0 <= i < |data| ==> Hashable(Get(data[i], groupBy))
    requires Hashable(Get(item, groupBy)) && KeysHashable(groups) && FirstSeenOrder(data, groupBy, groups)
    requires forall j :: 0 <= j < |groups| ==>
               FirstSeen(data + [item], groupBy, HashKeyOf(groups[j].key)) == FirstSeen(data, groupBy, HashKeyOf(groups[j].key))
    requires FirstSeen(data + [item], groupBy, HashKeyOf(Get(item, groupBy))) == |data|
    ensures KeysHashable(groups + [Group(Get(item, groupBy), [])])
    ensures FirstSeenOrder(data + [item], groupBy, groups + [Group(Get(item, groupBy), [])])
  {
    var a := data + [item];
    var key := Get(item, groupBy);
    var gs := groups + [Group(key, [])];
    OldEntriesOrder(data, item, groupBy, groups);
    assert a[|data|] == item;
    assert forall j :: 0 <= j < |groups| ==> gs[j] == groups[j];
    assert KeysHashable(gs);
    forall j | 0 <= j < |gs|
      ensures FirstSeen(a, groupBy, HashKeyOf(gs[j].key)) >= 0
      ensures gs[j].key == Get(a[FirstSeen(a, groupBy, HashKeyOf(gs[j].key))], groupBy)
    {
      if j == |groups| {
        assert gs[j].key == key;
      }
    }
    forall j1, j2 | 0 <= j1 < j2 < |gs|
      ensures FirstSeen(a, groupBy, HashKeyOf(gs[j1].key)) < FirstSeen(a, groupBy, HashKeyOf(gs[j2].key))
    {
      if j2 == |groups| {
        assert FirstSeen(a, groupBy, HashKeyOf(gs[j1].key)) < |data|;
      }
    }
  }

  /** One iteration of aggregate_data's loop, for item i whose group key is
      hashable: the groups of the items before it become those of the items
      up to it. */
  method AggregateItem(items: seq<Record>, i: int, groupBy: string, field: string, groups: seq<Group>)
      returns (r: seq<Group>)
    requires 0 <= i < |items|
    requires AggregatedInOrder(items[..i], groupBy, field, groups)
    requires Hashable(Get(items[i], groupBy))
    ensures AggregatedInOrder(items[..i + 1], groupBy, field, r)
  {
    r := AddToGroups(groups, Get(items[i], groupBy), Get(items[i], field));
    assert items[..i + 1] == items[..i] + [items[i]];
    AddItemAggregates(items[..i], items[i], groupBy, field, groups);
    AddItemOrder(items[..i], items[i], groupBy, field, groups);
  }

  /** The body of aggregate_data's loop for one item whose group key is
      hashable: the entry of key is created at the end when missing, and value
      is appended to it unless it is None. */
  method AddToGroups(groups: seq<Group>, key: Value, value: Value) returns (r: seq<Group>)
    requires KeysHashable(groups) && Hashable(key)
    ensures r == AddItem(groups, key, value)
  {
    r := groups;
    var j := FindGroup(groups, HashKeyOf(key));
    if j < 0 {
      r := r + [Group(key, [])];
      j := |r| - 1;
    }
    if value != PyNone {
      r := r[j := Group(r[j].key, r[j].values + [value])];
    }
  }

  /** The loop of aggregate_data over the processor's records. */
  method Aggregate(items: seq<Record>, groupBy: string, field: string) returns (r: Result<seq<Group>>)
    ensures r.Err? <==> exists i :: 0 <= i < |items| && !Hashable(Get(items[i], groupBy))
    ensures r.Err? ==> exists i :: 0 <= i < |items| && !Hashable(Get(items[i], groupBy))
                        && (forall m :: 0 <= m < i ==> Hashable(Get(items[m], groupBy)))
                        && r == Err(TypeError, "unhashable type: '" + TypeName(Get(items[i], groupBy)) + "'")
    ensures r.Ok? ==> Aggregated(items, groupBy, field, r.value) && FirstSeenOrder(items, groupBy, r.value)
  {
    var groups: seq<Group> := [];
    for i := 0 to |items|
      invariant AggregatedInOrder(items[..i], groupBy, field, groups)
    {
      var key := Get(items[i], groupBy);
      var value := Get(items[i], field);
      if !Hashable(key) {
        assert forall m :: 0 <= m < i ==> Hashable(Get(items[m], groupBy)) by {
          forall m | 0 <= m < i ensures Hashable(Get(items[m], groupBy)) {
            assert items[..i][m] == items[m];
          }
        }
        return Err(TypeError, "unhashable type: '" + TypeName(key) + "'");
      }
      groups := AggregateItem(items, i, groupBy, field, groups);
    }
    assert items[..|items|] == items;
    return Ok(groups);
  }

  /** The state of a DataProcessor: the records and whether process() has run. */
  class DataProcessor {
    var data: seq<Record>
    var processed: bool

    /** A new processor holds the data and is not yet processed. */
    constructor (data: seq<Record>)
      ensures this.data == data && !processed
    {
      this.data := data;
      processed := false;
    }

    /** filter_data: the items whose value at key equals value, a missing key
        reading as None, in their original order. */
    function FilterData(key: string, value: Value): (r: seq<Record>)
      reads this
      ensures |r| <= |data|
      ensures forall item :: item in r <==> item in data && PyEq(Get(item, key), value)
      ensures forall rest :: Filter(data + rest, Matches(key, value)) == r + Filter(rest, Matches(key, value))
    {
      FilterMembers(data, Matches(key, value));
      forall rest ensures Filter(data + rest, Matches(key, value)) == Filter(data, Matches(key, value)) + Filter(rest, Matches(key, value)) {
        FilterConcat(data, rest, Matches(key, value));
      }
      Filter(data, Matches(key, value))
    }

    /** sort_data: a TypeError when two keys cannot be compared, and otherwise a
        sorted permutation of data, ascending or reversed, in which items with
        equal keys keep their original order. data itself is not changed. */
    function SortData(key: string, reverse: bool): (r: Result<seq<Record>>)
      reads this
      ensures r.Err? <==> !SortableKeys(data, key)
      ensures r.Err? ==> r.kind == TypeError
      ensures r.Ok? ==> multiset(r.value) == multiset(data)
      ensures r.Ok? ==> SortedBy(r.value, SortKey(key), reverse)
      ensures r.Ok? ==> forall k :: Filter(r.value, HasKey(SortKey(key), k)) == Filter(data, HasKey(SortKey(key), k))
    {
      if !SortableKeys(data, key) then Err(TypeError, "'<' not supported between instances")
      else
        SortBySorted(data, SortKey(key), reverse);
        SortByStableAll(data, SortKey(key), reverse);
        Ok(SortBy(data, SortKey(key), reverse))
    }

    /** aggregate_data: one entry per distinct group_by value, created when the
        value is first seen, even if no item of it has a non-None value; the
        non-None aggregate values appended in data order. An unhashable group_by
        value (a list or dict) raises TypeError at the membership test. */
    method AggregateData(groupBy: string, field: string) returns (r: Result<seq<Group>>)
      ensures r.Err? <==> exists i :: 0 <= i < |data| && !Hashable(Get(data[i], groupBy))
      ensures r.Err? ==> exists i :: 0 <= i < |data| && !Hashable(Get(data[i], groupBy))
                          && (forall m :: 0 <= m < i ==> Hashable(Get(data[m], groupBy)))
                          && r == Err(TypeError, "unhashable type: '" + TypeName(Get(data[i], groupBy)) + "'")
      ensures r.Ok? ==> Aggregated(data, groupBy, field, r.value) && FirstSeenOrder(data, groupBy, r.value)
    {
      r := Aggregate(data, groupBy, field);
    }

    /** process: marks the processor as processed and leaves data alone. */
    method Process()
      modifies this
      ensures processed && data == old(data)
    {
      processed := true;
    }
  }
}
