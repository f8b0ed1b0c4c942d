/** The `HashMap` combinator `lookup(key)`: the entry stored under a key. */
module MapPaths {
  import opened Wrappers
  import opened StateTree
  import opened TestItems
  import opened Paths

  /** The map an inner path reaches, if it reaches one. */
  predicate ReachesMap(q: Path, s: Value) {
    Follow(q, s).Some? && Follow(q, s).value.Map?
  }

  /**
   * `lookup(key)` resolves exactly when the inner path reaches a map that
   * holds `key`, and then reaches the entry stored under it; `select` is
   * `follow`.
   */
  lemma LookupFollows(q: Path, key: Key, s: Value)
    ensures Follow(MapLookup(q, key), s).Some? <==> ReachesMap(q, s) && key in Follow(q, s).value.entries
    ensures Follow(MapLookup(q, key), s).Some? ==> Follow(MapLookup(q, key), s).value == Follow(q, s).value.entries[key]
    ensures SelectPath(MapLookup(q, key), s) == Follow(MapLookup(q, key), s)
  {
  }

  /**
   * `lookup(key)`'s `follow_mut` looks the key up in the map the inner
   * `follow_mut` reaches and hands out that entry: writing through it
   * replaces the value under `key` and leaves the key set as it was.
   */
  lemma LookupFollowMut(q: Path, key: Key, s: Value, v: Value)
    ensures FollowMut(MapLookup(q, key), s).Some? <==>
      FollowMut(q, s).Some? && FollowMut(q, s).value.Map? && key in FollowMut(q, s).value.entries
    ensures Write(MapLookup(q, key), s, v).Some? <==> FollowMut(MapLookup(q, key), s).Some?
    ensures FollowMut(MapLookup(q, key), s).Some? ==>
      var entries := FollowMut(q, s).value.entries;
      FollowMut(MapLookup(q, key), s) == Some(entries[key]) &&
      Write(MapLookup(q, key), s, v) == Write(q, s, Map(entries[key := v])) &&
      entries[key := v].Keys == entries.Keys && entries[key := v][key] == v
  {
    FollowMutIffWrite(MapLookup(q, key), s, v);
  }

  /** A map lookup is unsafe whatever its inner path, so `manually_asserted` accepts it. */
  lemma MapLookupUnsafe(q: Path, key: Key, root: Ty)
    ensures !Safe(MapLookup(q, key))
    ensures TypeOf(Asserted(MapLookup(q, key)), root) == TypeOf(MapLookup(q, key), root)
  {
  }

  /** `State { items: HashMap::from([(10, UnitItem)]) }`. */
  const ExampleState: Value := Record(map["items" := Map(map[10 := UnitItem])])

  const ExampleStateTy: Ty := RecordTy("State", map["items" := MapTy(UnitItemTy)])

  /** `items().lookup(10)` selects `UnitItem`. */
  lemma Example()
    ensures HasType(ExampleState, ExampleStateTy)
    ensures TypeOf(MapLookup(Field(Root, "items"), 10), ExampleStateTy) == Some(UnitItemTy)
    ensures Select(PathSelector(MapLookup(Field(Root, "items"), 10)), ExampleState) == Some(UnitItem)
  {
    assert TypeOf(Field(Root, "items"), ExampleStateTy) == Some(MapTy(UnitItemTy));
    assert Follow(Field(Root, "items"), ExampleState) == Some(Map(map[10 := UnitItem]));
  }
}
