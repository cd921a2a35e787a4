/** The key remapping that apply_column_mapping and both versions of
    transform_data_structure perform on a record.

    A mapping is a dictionary from old keys to new keys; its iteration order
    matters when two old keys map to the same new key, so it is a sequence of
    (old key, new key) pairs with distinct old keys.
 */
module Records {
  import opened PyValues

  type Mapping = seq<(string, string)>

  /** The old keys of a mapping are distinct, as the keys of a dictionary are. */
  predicate IsMapping(mapping: Mapping)
  {
    forall i, j :: 0 <= i < j < |mapping| ==> mapping[i].0 != mapping[j].0
  }

  /** The old keys of a mapping (`k in mapping`). */
  function OldKeys(mapping: Mapping): set<string>
  {
    set i | 0 <= i < |mapping| :: mapping[i].0
  }

  /** The first loop: for each entry in order whose old key is present, the new
      key receives the old key's value, later entries overwriting earlier ones. */
  function MappedPart(item: Record, mapping: Mapping): Record
  {
    if mapping == [] then map[]
    else
      var m := MappedPart(item, mapping[..|mapping| - 1]);
      var (o, n) := mapping[|mapping| - 1];
      if o in item then m[n := item[o]] else m
  }

  /** The fields of item whose keys the mapping does not mention. */
  function Unmapped(item: Record, mapping: Mapping): Record
  {
    map k | k in item && k !in OldKeys(mapping) :: item[k]
  }

  /** The remapped record: the mapped part, then the unmapped fields written over it. */
  function RemapRecord(item: Record, mapping: Mapping): Record
  {
    MappedPart(item, mapping) + Unmapped(item, mapping)
  }

  /** New key n is written by the first loop exactly when some entry maps a
      present old key to it. */
  lemma {:induction false} MappedPartKeys(item: Record, mapping: Mapping, n: string)
    ensures n in MappedPart(item, mapping)
        <==> exists i :: 0 <= i < |mapping| && mapping[i].1 == n && mapping[i].0 in item
  {
    if mapping != [] {
      var init := mapping[..|mapping| - 1];
      MappedPartKeys(item, init, n);
      assert forall i :: 0 <= i < |init| ==> init[i] == mapping[i];
    }
  }

  /** The value under a new key comes from the last entry that writes it. */
  lemma {:induction false} MappedPartValue(item: Record, mapping: Mapping, i: int)
    requires 0 <= i < |mapping| && mapping[i].0 in item
    requires forall j :: i < j < |mapping| && mapping[j].1 == mapping[i].1 ==> mapping[j].0 !in item
    ensures mapping[i].1 in MappedPart(item, mapping)
    ensures MappedPart(item, mapping)[mapping[i].1] == item[mapping[i].0]
  {
    var init := mapping[..|mapping| - 1];
    if i < |mapping| - 1 {
      assert init[i] == mapping[i];
      MappedPartValue(item, init, i);
    }
  }

  /** An unmapped field is copied unchanged, even when a new key collides with it. */
  lemma RemapKeepsUnmapped(item: Record, mapping: Mapping, k: string)
    requires k in item && k !in OldKeys(mapping)
    ensures k in RemapRecord(item, mapping) && RemapRecord(item, mapping)[k] == item[k]
  {
  }

  /** A mapped value arrives under its new key, unless an unmapped field of that
      name or a later entry overwrites it. */
  lemma RemapMovesMapped(item: Record, mapping: Mapping, i: int)
    requires 0 <= i < |mapping| && mapping[i].0 in item
    requires forall j :: i < j < |mapping| && mapping[j].1 == mapping[i].1 ==> mapping[j].0 !in item
    requires mapping[i].1 !in item || mapping[i].1 in OldKeys(mapping)
    ensures mapping[i].1 in RemapRecord(item, mapping)
    ensures RemapRecord(item, mapping)[mapping[i].1] == item[mapping[i].0]
  {
    MappedPartValue(item, mapping, i);
  }

  /** The keys of the result: the unmapped keys of item and the new keys of the
      entries whose old key is present. So a mapped old key survives only when
      some entry maps onto it. */
  lemma RemapKeys(item: Record, mapping: Mapping, k: string)
    ensures k in RemapRecord(item, mapping)
        <==> (k in item && k !in OldKeys(mapping))
             || exists i :: 0 <= i < |mapping| && mapping[i].1 == k && mapping[i].0 in item
  {
    MappedPartKeys(item, mapping, k);
  }

  /** The empty mapping changes nothing. */
  lemma RemapEmpty(item: Record)
    ensures RemapRecord(item, []) == item
  {
    assert OldKeys([]) == {};
    assert MappedPart(item, []) == map[];
  }

  /** The union of the keys of all records: set().union(*(d.keys() for d in data)). */
  function AllKeys(data: seq<Record>): (keys: set<string>)
    ensures forall k :: k in keys <==> exists i :: 0 <= i < |data| && k in data[i]
  {
    set i, k | 0 <= i < |data| && k in data[i] :: k
  }

  /** The fields of r outside rest and outside excluded: what the copying loop
      has written so far. */
  function Copied(r: Record, rest: set<string>, excluded: set<string>): Record
  {
    map k | k in r && k !in rest && k !in excluded :: r[k]
  }

  /** One step of the copying loop: the field key leaves rest and is written
      unless it is excluded. */
  lemma CopyStep(acc: Record, r: Record, rest: set<string>, excluded: set<string>, key: string)
    requires key in rest && key in r
    ensures (if key in excluded then acc + Copied(r, rest, excluded) else (acc + Copied(r, rest, excluded))[key := r[key]])
            == acc + Copied(r, rest - {key}, excluded)
  {
  }
}
