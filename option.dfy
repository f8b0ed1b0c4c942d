/** The `Option` combinator `unwrapped()`: treat an `Option<T>` as a `T` that may be missing. */
module OptionPaths {
  import opened Wrappers
  import opened StateTree
  import opened TestItems
  import opened Paths

  /**
   * `unwrapped()` resolves exactly when the inner path reaches a `Some`,
   * and then reaches its content; `select` is `follow`.
   */
  lemma UnwrappedFollows(q: Path, s: Value)
    ensures Follow(Unwrapped(q), s).Some? <==> Follow(q, s).Some? && Follow(q, s).value.OptSome?
    ensures Follow(Unwrapped(q), s).Some? ==> Follow(Unwrapped(q), s).value == Follow(q, s).value.content
    ensures SelectPath(Unwrapped(q), s) == Follow(Unwrapped(q), s)
  {
  }

  /**
   * `unwrapped()`'s `follow_mut` resolves exactly when the inner
   * `follow_mut` reaches a `Some`, and hands out its content: writing
   * through it replaces the content of the `Some`; a `None` is never turned
   * into a `Some`.
   */
  lemma UnwrappedFollowMut(q: Path, s: Value, v: Value)
    ensures FollowMut(Unwrapped(q), s).Some? <==> FollowMut(q, s).Some? && FollowMut(q, s).value.OptSome?
    ensures Write(Unwrapped(q), s, v).Some? <==> FollowMut(Unwrapped(q), s).Some?
    ensures FollowMut(Unwrapped(q), s).Some? ==>
      FollowMut(Unwrapped(q), s) == Some(FollowMut(q, s).value.content) &&
      Write(Unwrapped(q), s, v) == Write(q, s, OptSome(v))
    ensures FollowMut(q, s) == Some(OptNone) ==> Write(Unwrapped(q), s, v).None?
  {
    FollowMutIffWrite(Unwrapped(q), s, v);
  }

  /** `unwrapped()` is unsafe whatever its inner path, so `manually_asserted` accepts it. */
  lemma UnwrappedUnsafe(q: Path, root: Ty)
    ensures !Safe(Unwrapped(q))
    ensures TypeOf(Asserted(Unwrapped(q)), root) == TypeOf(Unwrapped(q), root)
  {
  }

  /** `State { option: Some(TestItem { value: 20 }) }`. */
  const ExampleState: Value := Record(map["option" := OptSome(ItemWithValue(20))])

  /** This example's `TestItem { value: usize }`. */
  const UsizeItemTy: Ty := RecordTy("TestItem", map["value" := ScalarTy("usize")])

  const ExampleStateTy: Ty := RecordTy("State", map["option" := OptionTy(UsizeItemTy)])

  /** `option().unwrapped()` selects `TestItem { value: 20 }`; with `option: None` it selects nothing. */
  lemma Example()
    ensures HasType(ExampleState, ExampleStateTy)
    ensures TypeOf(Unwrapped(Field(Root, "option")), ExampleStateTy) == Some(UsizeItemTy)
    ensures Select(PathSelector(Unwrapped(Field(Root, "option"))), ExampleState) == Some(ItemWithValue(20))
    ensures Select(PathSelector(Unwrapped(Field(Root, "option"))), Record(map["option" := OptNone])).None?
  {
    assert TypeOf(Field(Root, "option"), ExampleStateTy) == Some(OptionTy(UsizeItemTy));
  }
}
