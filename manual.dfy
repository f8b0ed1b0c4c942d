/**
 * `manually_asserted()`: the caller's promise that an unsafe path resolves.
 * It changes the path's `SAFE` and nothing about its navigation.
 */
module ManualPaths {
  import opened Wrappers
  import opened StateTree
  import opened TestItems
  import opened Paths

  /**
   * `manually_asserted()` only applies to an unsafe path, and the result is
   * safe with the same target type.
   */
  lemma AssertedIsSafe(q: Path, root: Ty)
    requires TypeOf(Asserted(q), root).Some?
    ensures !Safe(q) && Safe(Asserted(q))
    ensures TypeOf(Asserted(q), root) == TypeOf(q, root)
  {
  }

  /**
   * `follow`, `follow_mut` and `select` of an asserted path are those of the
   * path it wraps, so it resolves exactly when the wrapped path does.
   */
  lemma AssertedDelegates(q: Path, s: Value, v: Value)
    ensures Follow(Asserted(q), s) == Follow(q, s)
    ensures FollowMut(Asserted(q), s) == FollowMut(q, s)
    ensures Write(Asserted(q), s, v) == Write(q, s, v)
    ensures SelectPath(Asserted(q), s) == SelectPath(q, s)
    ensures Follow(Asserted(q), s).Some? <==> Follow(q, s).Some?
  {
  }

  const ExampleStateTy: Ty := RecordTy("State", map["items" := VecTy(ItemWithIdTy)])

  /** `items().lookup(10).manually_asserted()`. */
  const ItemPath: Path := Asserted(VecLookup(Field(Root, "items"), ItemId, 10))

  /**
   * With item 10 present the asserted lookup is safe, well typed and
   * selects an item whose id is 10.
   */
  lemma Example()
    ensures HasType(Record(map["items" := Vec([ItemWithId(10)])]), ExampleStateTy)
    ensures TypeOf(ItemPath, ExampleStateTy) == Some(ItemWithIdTy)
    ensures SelectorSafe(PathSelector(ItemPath))
    ensures Select(PathSelector(ItemPath), Record(map["items" := Vec([ItemWithId(10)])])) == Some(ItemWithId(10))
    ensures ItemId(ItemWithId(10)) == 10
  {
    assert TypeOf(Field(Root, "items"), ExampleStateTy) == Some(VecTy(ItemWithIdTy));
    assert Follow(Field(Root, "items"), Record(map["items" := Vec([ItemWithId(10)])])) == Some(Vec([ItemWithId(10)]));
    assert ItemId(ItemWithId(10)) == 10;
    assert FindFirst([ItemWithId(10)], ItemId, 10) == Some(0);
    assert SelectPath(ItemPath.inner, Record(map["items" := Vec([ItemWithId(10)])])) == Some(ItemWithId(10));
  }

  /** `State { items: vec![TestItem { id: 11 }] }`: item 10 is missing. */
  const MissingState: Value := Record(map["items" := Vec([ItemWithId(11)])])

  /**
   * The assertion is only a promise: the same safe, well-typed path selects
   * nothing in a well-typed state where item 10 is missing.
   */
  lemma BrokenPromise()
    ensures HasType(MissingState, ExampleStateTy)
    ensures TypeOf(ItemPath, ExampleStateTy).Some? && Safe(ItemPath)
    ensures Select(PathSelector(ItemPath), MissingState).None?
  {
    Example();
    assert HasType(ItemWithId(11), ItemWithIdTy);
    var items := Field(Root, "items");
    FollowStep(items, MissingState);
    assert Follow(items, MissingState) == Some(Vec([ItemWithId(11)]));
    assert ItemId(ItemWithId(11)) == 11;
    assert FindFirst([ItemWithId(11)], ItemId, 10).None?;
    assert Narrow(ItemPath.inner, Vec([ItemWithId(11)])).None?;
    FollowStep(ItemPath.inner, MissingState);
    assert SelectPath(ItemPath, MissingState) == Follow(ItemPath.inner, MissingState);
  }
}
