/**
 * The combinator `downcast::<To>()` on a `Box<dyn Any>`: the payload when
 * its dynamic type is `To`. The dynamic type is the tag of a `Dynamic`
 * value, and `TypeId` comparison is equality of types, in which a struct
 * or an integer type is told apart from others by its name.
 */
module DowncastPaths {
  import opened Wrappers
  import opened StateTree
  import opened TestItems
  import opened Paths

  /**
   * `downcast::<To>()` resolves exactly when the inner path reaches a
   * dynamic value whose type is `To`, and then reaches its payload;
   * `select` is `follow`.
   */
  lemma DowncastFollows(q: Path, to: Ty, s: Value)
    ensures Follow(Downcast(q, to), s).Some? <==>
      Follow(q, s).Some? && Follow(q, s).value.Dynamic? && Follow(q, s).value.ty == to
    ensures Follow(Downcast(q, to), s).Some? ==> Follow(Downcast(q, to), s).value == Follow(q, s).value.payload
    ensures SelectPath(Downcast(q, to), s) == Follow(Downcast(q, to), s)
  {
  }

  /** What a well-typed downcast reaches in a well-typed state is a value of type `To`. */
  lemma DowncastTyped(q: Path, to: Ty, root: Ty, s: Value)
    requires TypeOf(Downcast(q, to), root).Some? && HasType(s, root) && ConversionsTyped(q)
    ensures TypeOf(Downcast(q, to), root) == Some(to)
    ensures Follow(Downcast(q, to), s).Some? ==> HasType(Follow(Downcast(q, to), s).value, to)
  {
    FollowTyped(Downcast(q, to), root, s);
  }

  /**
   * `downcast::<To>()`'s `follow_mut` makes the same type check on what the
   * inner `follow_mut` reaches and hands out the payload: writing through
   * it replaces the payload and keeps the dynamic type.
   */
  lemma DowncastFollowMut(q: Path, to: Ty, s: Value, v: Value)
    ensures FollowMut(Downcast(q, to), s).Some? <==>
      FollowMut(q, s).Some? && FollowMut(q, s).value.Dynamic? && FollowMut(q, s).value.ty == to
    ensures Write(Downcast(q, to), s, v).Some? <==> FollowMut(Downcast(q, to), s).Some?
    ensures FollowMut(Downcast(q, to), s).Some? ==>
      FollowMut(Downcast(q, to), s) == Some(FollowMut(q, s).value.payload) &&
      Write(Downcast(q, to), s, v) == Write(q, s, Dynamic(to, v))
  {
    FollowMutIffWrite(Downcast(q, to), s, v);
  }

  /** A downcast is unsafe whatever its inner path, so `manually_asserted` accepts it. */
  lemma DowncastUnsafe(q: Path, to: Ty, root: Ty)
    ensures !Safe(Downcast(q, to))
    ensures TypeOf(Asserted(Downcast(q, to)), root) == TypeOf(Downcast(q, to), root)
  {
  }

  /** `Inner { value }`. */
  function Inner(value: int): Value {
    Record(map["value" := Scalar(value)])
  }

  const InnerTy: Ty := RecordTy("Inner", map["value" := U32])

  /** `State { dynamic: Box::new(Inner { value: 99 }) }`, the box typed `Box<dyn Any>`. */
  const ExampleState: Value := Record(map["dynamic" := Dynamic(InnerTy, Inner(99))])

  const ExampleStateTy: Ty := RecordTy("State", map["dynamic" := AnyTy])

  /** `dynamic().downcast::<Inner>()` selects `Inner { value: 99 }`; a downcast to another type selects nothing. */
  lemma Example()
    ensures HasType(ExampleState, ExampleStateTy)
    ensures TypeOf(Downcast(Field(Root, "dynamic"), InnerTy), ExampleStateTy) == Some(InnerTy)
    ensures Select(PathSelector(Downcast(Field(Root, "dynamic"), InnerTy)), ExampleState) == Some(Inner(99))
    ensures Select(PathSelector(Downcast(Field(Root, "dynamic"), U32)), ExampleState).None?
  {
    assert TypeOf(Field(Root, "dynamic"), ExampleStateTy) == Some(AnyTy);
    assert Follow(Field(Root, "dynamic"), ExampleState) == Some(Dynamic(InnerTy, Inner(99)));
  }

  /**
   * `TypeId` is nominal: `Inner` and `TestItem` have the same fields, and
   * `Inner { value: 99 }` has the shape of a `TestItem`, yet
   * `dynamic().downcast::<TestItem>()` selects nothing.
   */
  lemma DowncastIsNominal()
    ensures InnerTy.fieldTys == ItemWithValueTy.fieldTys && InnerTy != ItemWithValueTy
    ensures HasType(Inner(99), ItemWithValueTy)
    ensures TypeOf(Downcast(Field(Root, "dynamic"), ItemWithValueTy), ExampleStateTy) == Some(ItemWithValueTy)
    ensures Select(PathSelector(Downcast(Field(Root, "dynamic"), ItemWithValueTy)), ExampleState).None?
  {
    assert TypeOf(Field(Root, "dynamic"), ExampleStateTy) == Some(AnyTy);
    assert Follow(Field(Root, "dynamic"), ExampleState) == Some(Dynamic(InnerTy, Inner(99)));
  }
}
