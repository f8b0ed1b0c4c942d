/** The `Box` combinator `unboxed()`: treat a `Box<T>` as the `T` it owns. */
module BoxedPaths {
  import opened Wrappers
  import opened StateTree
  import opened TestItems
  import opened Paths

  /**
   * On a well-typed state `unboxed()` resolves exactly when its inner path
   * does, and reaches the pointee; `select` is `follow`.
   */
  lemma UnboxedFollows(q: Path, root: Ty, s: Value)
    requires TypeOf(Unboxed(q), root).Some? && HasType(s, root) && ConversionsTyped(q)
    ensures Follow(Unboxed(q), s).Some? <==> Follow(q, s).Some?
    ensures Follow(Unboxed(q), s).Some? ==> Follow(Unboxed(q), s).value == Follow(q, s).value.pointee
    ensures SelectPath(Unboxed(q), s) == Follow(Unboxed(q), s)
  {
    FollowTyped(q, root, s);
  }

  /**
   * `unboxed()`'s `follow_mut` hands out the pointee of the box the inner
   * `follow_mut` reaches: writing through it puts a box around the value
   * written.
   */
  lemma UnboxedFollowMut(q: Path, s: Value, v: Value)
    ensures FollowMut(Unboxed(q), s).Some? <==> FollowMut(q, s).Some? && FollowMut(q, s).value.Boxed?
    ensures Write(Unboxed(q), s, v).Some? <==> FollowMut(Unboxed(q), s).Some?
    ensures FollowMut(Unboxed(q), s).Some? ==>
      FollowMut(Unboxed(q), s) == Some(FollowMut(q, s).value.pointee) &&
      Write(Unboxed(q), s, v) == Write(q, s, Boxed(v))
  {
    FollowMutIffWrite(Unboxed(q), s, v);
  }

  /** `unboxed()` keeps its inner path's `SAFE`. */
  lemma UnboxedKeepsSafe(q: Path, root: Ty)
    ensures Safe(Unboxed(q)) == Safe(q)
    ensures TypeOf(Asserted(Unboxed(q)), root).Some? ==> !Safe(q)
  {
  }

  /** `State { inner: Box::new(TestItem { value: 42 }) }`. */
  const ExampleState: Value := Record(map["inner" := Boxed(ItemWithValue(42))])

  const ExampleStateTy: Ty := RecordTy("State", map["inner" := BoxTy(ItemWithValueTy)])

  /** `inner().unboxed()` is safe and selects `TestItem { value: 42 }`. */
  lemma Example()
    ensures HasType(ExampleState, ExampleStateTy)
    ensures TypeOf(Unboxed(Field(Root, "inner")), ExampleStateTy) == Some(ItemWithValueTy)
    ensures SelectorSafe(PathSelector(Unboxed(Field(Root, "inner"))))
    ensures Select(PathSelector(Unboxed(Field(Root, "inner"))), ExampleState) == Some(ItemWithValue(42))
  {
    assert TypeOf(Field(Root, "inner"), ExampleStateTy) == Some(BoxTy(ItemWithValueTy));
  }
}
