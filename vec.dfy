/**
 * The two `Vec` combinators: `index(i)`, a positional get, and `lookup(id)`,
 * which finds the first item whose `VecItem::get_id` is `id`.
 */
module VecPaths {
  import opened Wrappers
  import opened StateTree
  import opened TestItems
  import opened Paths
  import PathLaws

  /** The `Vec` an inner path reaches, if it reaches one. */
  predicate ReachesVec(q: Path, s: Value) {
    Follow(q, s).Some? && Follow(q, s).value.Vec?
  }

  /**
   * `index(i)` reaches position `i` of the inner `Vec` exactly when the
   * inner path resolves and `i` is in bounds; `select` is `follow`.
   */
  lemma IndexFollows(q: Path, i: nat, s: Value)
    ensures Follow(VecIndex(q, i), s).Some? <==> ReachesVec(q, s) && i < |Follow(q, s).value.items|
    ensures Follow(VecIndex(q, i), s).Some? ==> Follow(VecIndex(q, i), s).value == Follow(q, s).value.items[i]
    ensures SelectPath(VecIndex(q, i), s) == Follow(VecIndex(q, i), s)
  {
  }

  /** The `Vec` an inner path's `follow_mut` reaches, if it reaches one. */
  predicate ReachesVecMut(q: Path, s: Value) {
    FollowMut(q, s).Some? && FollowMut(q, s).value.Vec?
  }

  /**
   * `index(i)`'s `follow_mut` makes the same bounds check on the `Vec` the
   * inner `follow_mut` reaches and hands out element `i`: writing through it
   * replaces position `i` of that `Vec` and keeps its length.
   */
  lemma IndexFollowMut(q: Path, i: nat, s: Value, v: Value)
    ensures FollowMut(VecIndex(q, i), s).Some? <==> ReachesVecMut(q, s) && i < |FollowMut(q, s).value.items|
    ensures Write(VecIndex(q, i), s, v).Some? <==> FollowMut(VecIndex(q, i), s).Some?
    ensures FollowMut(VecIndex(q, i), s).Some? ==>
      var items := FollowMut(q, s).value.items;
      FollowMut(VecIndex(q, i), s) == Some(items[i]) &&
      Write(VecIndex(q, i), s, v) == Write(q, s, Vec(items[i := v])) &&
      |items[i := v]| == |items| && items[i := v][i] == v
  {
    FollowMutIffWrite(VecIndex(q, i), s, v);
  }

  /**
   * `lookup(id)` resolves exactly when the inner path reaches a `Vec` that
   * holds an item with that id, and then reaches the first such item;
   * `select` is `follow`.
   */
  lemma LookupFollows(q: Path, getId: Value -> Key, id: Key, s: Value)
    ensures Follow(VecLookup(q, getId, id), s).Some? <==>
      ReachesVec(q, s) && exists j :: 0 <= j < |Follow(q, s).value.items| && getId(Follow(q, s).value.items[j]) == id
    ensures Follow(VecLookup(q, getId, id), s).Some? ==>
      exists j :: 0 <= j < |Follow(q, s).value.items| &&
        Follow(VecLookup(q, getId, id), s).value == Follow(q, s).value.items[j] &&
        getId(Follow(q, s).value.items[j]) == id &&
        forall k :: 0 <= k < j ==> getId(Follow(q, s).value.items[k]) != id
    ensures SelectPath(VecLookup(q, getId, id), s) == Follow(VecLookup(q, getId, id), s)
  {
    if ReachesVec(q, s) {
      var items := Follow(q, s).value.items;
      var r := FindFirst(items, getId, id);
      FollowStep(VecLookup(q, getId, id), s);
      if r.Some? {
        assert 0 <= r.value < |items| && getId(items[r.value]) == id;
        assert Follow(VecLookup(q, getId, id), s) == Some(items[r.value]);
      }
    }
  }

  /**
   * `lookup(id)` is `index` at the position of the first match, for `follow`
   * and `follow_mut` alike, each searching the `Vec` its inner path reaches;
   * with no match it fails.
   */
  lemma LookupIsFirstMatchIndex(q: Path, getId: Value -> Key, id: Key, s: Value, v: Value)
    ensures ReachesVec(q, s) ==>
      var r := FindFirst(Follow(q, s).value.items, getId, id);
      if r.Some? then Follow(VecLookup(q, getId, id), s) == Follow(VecIndex(q, r.value), s)
      else Follow(VecLookup(q, getId, id), s).None?
    ensures ReachesVecMut(q, s) ==>
      var r := FindFirst(FollowMut(q, s).value.items, getId, id);
      if r.Some? then
        FollowMut(VecLookup(q, getId, id), s) == FollowMut(VecIndex(q, r.value), s) &&
        Write(VecLookup(q, getId, id), s, v) == Write(VecIndex(q, r.value), s, v)
      else
        FollowMut(VecLookup(q, getId, id), s).None? && Write(VecLookup(q, getId, id), s, v).None?
  {
    if ReachesVec(q, s) {
      LookupReadsFirstMatch(q, getId, id, s);
    }
    if ReachesVecMut(q, s) {
      LookupWritesFirstMatch(q, getId, id, s, v);
    }
  }

  /** The `follow` half of `LookupIsFirstMatchIndex`. */
  lemma LookupReadsFirstMatch(q: Path, getId: Value -> Key, id: Key, s: Value)
    requires ReachesVec(q, s)
    ensures var r := FindFirst(Follow(q, s).value.items, getId, id);
      if r.Some? then Follow(VecLookup(q, getId, id), s) == Follow(VecIndex(q, r.value), s)
      else Follow(VecLookup(q, getId, id), s).None?
  {
    var r := FindFirst(Follow(q, s).value.items, getId, id);
    FollowStep(VecLookup(q, getId, id), s);
    if r.Some? {
      FollowStep(VecIndex(q, r.value), s);
    }
  }

  /** The `follow_mut` half of `LookupIsFirstMatchIndex`. */
  lemma LookupWritesFirstMatch(q: Path, getId: Value -> Key, id: Key, s: Value, v: Value)
    requires ReachesVecMut(q, s)
    ensures var r := FindFirst(FollowMut(q, s).value.items, getId, id);
      if r.Some? then
        FollowMut(VecLookup(q, getId, id), s) == FollowMut(VecIndex(q, r.value), s) &&
        Write(VecLookup(q, getId, id), s, v) == Write(VecIndex(q, r.value), s, v)
      else
        FollowMut(VecLookup(q, getId, id), s).None? && Write(VecLookup(q, getId, id), s, v).None?
  {
    var r := FindFirst(FollowMut(q, s).value.items, getId, id);
    FollowMutStep(VecLookup(q, getId, id), s);
    WriteUnfold(VecLookup(q, getId, id), s, v);
    if r.Some? {
      FollowMutStep(VecIndex(q, r.value), s);
      WriteUnfold(VecIndex(q, r.value), s, v);
    }
  }

  /**
   * A lookup finds its item again after a write only when the written item
   * keeps the id: then the write succeeds and the lookup reads what was
   * written.
   */
  lemma LookupFollowMut(q: Path, getId: Value -> Key, id: Key, root: Ty, s: Value, v: Value)
    requires TypeOf(VecLookup(q, getId, id), root).Some? && HasType(s, root)
    requires ConversionsBehave(q) && LookupFree(q)
    requires HasType(v, TypeOf(VecLookup(q, getId, id), root).value) && getId(v) == id
    requires Follow(VecLookup(q, getId, id), s).Some?
    ensures ReadsBack(VecLookup(q, getId, id), s, v)
  {
    var p := VecLookup(q, getId, id);
    var t := TypeOf(q, root).value;
    var x := Follow(q, s).value;
    FollowStep(p, s);
    BehavingIsTyped(q);
    FollowTyped(q, root, s);
    FollowMutIsFollow(q, root, s);
    NarrowMutIffReplace(p, x, v);
    ReplaceTyped(p, x, t, v);
    var x' := Replace(p, x, v).value;
    PathLaws.WriteThenFollow(q, root, s, x');
    var s' := Write(q, s, x').value;
    WriteUnfold(p, s, v);
    assert Write(p, s, v) == Some(s');
    PathLaws.ReplaceThenNarrow(p, x, t, v);
    FollowStep(p, s');
    assert Follow(p, s') == Some(v);
  }

  /** Both `Vec` combinators are unsafe whatever their inner path, so `manually_asserted` accepts them. */
  lemma VecPathsUnsafe(q: Path, i: nat, getId: Value -> Key, id: Key, root: Ty)
    ensures !Safe(VecIndex(q, i)) && !Safe(VecLookup(q, getId, id))
    ensures TypeOf(Asserted(VecIndex(q, i)), root) == TypeOf(VecIndex(q, i), root)
    ensures TypeOf(Asserted(VecLookup(q, getId, id)), root) == TypeOf(VecLookup(q, getId, id), root)
  {
  }

  // ---------------------------------------------------------------------
  // The module's example
  // ---------------------------------------------------------------------

  /** `State { items: vec![TestItem { id: 10 }] }`. */
  const ExampleState: Value := Record(map["items" := Vec([ItemWithId(10)])])

  const ExampleStateTy: Ty := RecordTy("State", map["items" := VecTy(ItemWithIdTy)])

  /** Both `items().lookup(10)` and `items().index(0)` select `TestItem { id: 10 }`. */
  lemma Example()
    ensures HasType(ExampleState, ExampleStateTy)
    ensures TypeOf(VecLookup(Field(Root, "items"), ItemId, 10), ExampleStateTy) == Some(ItemWithIdTy)
    ensures Select(PathSelector(VecLookup(Field(Root, "items"), ItemId, 10)), ExampleState) == Some(ItemWithId(10))
    ensures Select(PathSelector(VecIndex(Field(Root, "items"), 0)), ExampleState) == Some(ItemWithId(10))
  {
    var items := Field(Root, "items");
    assert TypeOf(items, ExampleStateTy) == Some(VecTy(ItemWithIdTy));
    assert Follow(items, ExampleState) == Some(Vec([ItemWithId(10)]));
    assert ItemId(ItemWithId(10)) == 10;
    assert FindFirst([ItemWithId(10)], ItemId, 10) == Some(0);
  }

  /**
   * Writing an item with a different id through `lookup(10)` succeeds, but
   * the same path no longer resolves afterwards.
   */
  lemma RenamedItemIsLost()
    ensures var p := VecLookup(Field(Root, "items"), ItemId, 10);
      Write(p, ExampleState, ItemWithId(11)) == Some(Record(map["items" := Vec([ItemWithId(11)])])) &&
      Follow(p, Write(p, ExampleState, ItemWithId(11)).value).None?
  {
    assert FindFirst([ItemWithId(10)], ItemId, 10) == Some(0);
    assert FindFirst([ItemWithId(11)], ItemId, 10).None?;
    assert [ItemWithId(10)][0 := ItemWithId(11)] == [ItemWithId(11)];
    assert map["items" := Vec([ItemWithId(10)])]["items" := Vec([ItemWithId(11)])] == map["items" := Vec([ItemWithId(11)])];
  }
}
