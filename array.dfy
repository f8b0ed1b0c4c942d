/** The array combinator `array_index(i)`: a bounds-checked get on `[Item; N]`. */
module ArrayPaths {
  import opened Wrappers
  import opened StateTree
  import opened TestItems
  import opened Paths

  /** The array an inner path reaches, if it reaches one. */
  predicate ReachesArray(q: Path, s: Value) {
    Follow(q, s).Some? && Follow(q, s).value.Array?
  }

  /**
   * `array_index(i)` reaches element `i` exactly when the inner path
   * resolves and `i` is in bounds; `select` is `follow`.
   */
  lemma IndexFollows(q: Path, i: nat, s: Value)
    ensures Follow(ArrayIndex(q, i), s).Some? <==> ReachesArray(q, s) && i < |Follow(q, s).value.elems|
    ensures Follow(ArrayIndex(q, i), s).Some? ==> Follow(ArrayIndex(q, i), s).value == Follow(q, s).value.elems[i]
    ensures SelectPath(ArrayIndex(q, i), s) == Follow(ArrayIndex(q, i), s)
  {
  }

  /**
   * In a well-typed state the bound is the array type's `N`: once the inner
   * path resolves, `array_index(i)` resolves exactly when `i < N`.
   */
  lemma IndexBoundIsN(q: Path, i: nat, root: Ty, s: Value)
    requires TypeOf(ArrayIndex(q, i), root).Some? && HasType(s, root) && ConversionsTyped(q)
    requires Follow(q, s).Some?
    ensures Follow(ArrayIndex(q, i), s).Some? <==> i < TypeOf(q, root).value.len
  {
    FollowTyped(q, root, s);
  }

  /**
   * `array_index(i)`'s `follow_mut` makes the same bounds check on the
   * array the inner `follow_mut` reaches and hands out element `i`: writing
   * through it replaces element `i` and keeps the length `N`.
   */
  lemma IndexFollowMut(q: Path, i: nat, s: Value, v: Value)
    ensures FollowMut(ArrayIndex(q, i), s).Some? <==>
      FollowMut(q, s).Some? && FollowMut(q, s).value.Array? && i < |FollowMut(q, s).value.elems|
    ensures Write(ArrayIndex(q, i), s, v).Some? <==> FollowMut(ArrayIndex(q, i), s).Some?
    ensures FollowMut(ArrayIndex(q, i), s).Some? ==>
      var elems := FollowMut(q, s).value.elems;
      FollowMut(ArrayIndex(q, i), s) == Some(elems[i]) &&
      Write(ArrayIndex(q, i), s, v) == Write(q, s, Array(elems[i := v])) &&
      |elems[i := v]| == |elems| && elems[i := v][i] == v
  {
    FollowMutIffWrite(ArrayIndex(q, i), s, v);
  }

  /** An array index is unsafe even when the array path itself is safe. */
  lemma ArrayIndexUnsafe(q: Path, i: nat, root: Ty)
    ensures !Safe(ArrayIndex(q, i))
    ensures TypeOf(Asserted(ArrayIndex(q, i)), root) == TypeOf(ArrayIndex(q, i), root)
  {
  }

  /** `State { items: [7, 8, 9] }`. */
  const ExampleState: Value := Record(map["items" := Array([Scalar(7), Scalar(8), Scalar(9)])])

  const ExampleStateTy: Ty := RecordTy("State", map["items" := ArrayTy(U32, 3)])

  /** `items().array_index(1)` selects `8`, and index 3 is out of bounds. */
  lemma Example()
    ensures HasType(ExampleState, ExampleStateTy)
    ensures TypeOf(ArrayIndex(Field(Root, "items"), 1), ExampleStateTy) == Some(U32)
    ensures Select(PathSelector(ArrayIndex(Field(Root, "items"), 1)), ExampleState) == Some(Scalar(8))
    ensures Select(PathSelector(ArrayIndex(Field(Root, "items"), 3)), ExampleState).None?
  {
    assert TypeOf(Field(Root, "items"), ExampleStateTy) == Some(ArrayTy(U32, 3));
  }
}
