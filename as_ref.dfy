/**
 * The combinator `path_as_ref()`: view a value through its `AsRef<Target>`
 * and `AsMut<Target>` implementations, modelled by a `Conversion`.
 */
module AsRefPaths {
  import opened Wrappers
  import opened StateTree
  import opened TestItems
  import opened Paths
  import opened Contexts

  /**
   * `path_as_ref()` resolves exactly when its inner path does, and reaches
   * the `as_ref` view of the inner target; `select` is `follow`.
   */
  lemma AsRefFollows(q: Path, c: Conversion, s: Value)
    ensures Follow(AsRef(q, c), s).Some? <==> Follow(q, s).Some?
    ensures Follow(AsRef(q, c), s).Some? ==> Follow(AsRef(q, c), s).value == c.view(Follow(q, s).value)
    ensures SelectPath(AsRef(q, c), s) == Follow(AsRef(q, c), s)
  {
  }

  /**
   * `path_as_ref()`'s `follow_mut` resolves exactly when its inner path's
   * `follow_mut` does, and hands out the `as_mut` target of what that
   * reaches: writing `v` through it makes the inner target what writing `v`
   * through `as_mut` makes of it.
   */
  lemma AsRefFollowMut(q: Path, c: Conversion, s: Value, v: Value)
    ensures FollowMut(AsRef(q, c), s).Some? <==> FollowMut(q, s).Some?
    ensures Write(AsRef(q, c), s, v).Some? <==> FollowMut(q, s).Some?
    ensures FollowMut(q, s).Some? ==>
      FollowMut(AsRef(q, c), s) == Some(c.mutView(FollowMut(q, s).value)) &&
      Write(AsRef(q, c), s, v) == Write(q, s, c.update(FollowMut(q, s).value, v))
  {
    FollowMutIffWrite(AsRef(q, c), s, v);
  }

  /** `path_as_ref()` keeps its inner path's `SAFE`. */
  lemma AsRefKeepsSafe(q: Path, c: Conversion, root: Ty)
    ensures Safe(AsRef(q, c)) == Safe(q)
    ensures TypeOf(Asserted(AsRef(q, c)), root).Some? ==> !Safe(q)
  {
  }

  /** The pointee of a box. */
  function Pointee(x: Value): Value {
    if x.Boxed? then x.pointee else x
  }

  /**
   * `Box<T>: AsRef<T> + AsMut<T>`: both return the pointee, and a write
   * replaces it.
   */
  function BoxAsRef(t: Ty): Conversion {
    Conversion(BoxTy(t), t, Pointee, Pointee, (x: Value, w: Value) => Boxed(w))
  }

  /** The `Box` conversion's halves agree and keep the `as_ref`/`as_mut` laws. */
  lemma BoxAsRefBehaves(t: Ty)
    ensures WellBehaved(BoxAsRef(t))
  {
    var c := BoxAsRef(t);
    forall x | HasType(x, c.source)
      ensures HasType(c.view(x), c.target) && c.update(x, c.view(x)) == x
    {
      assert x.Boxed?;
    }
  }

  /** `Pair<T> { a: T, b: T }`. */
  function PairTy(t: Ty): Ty {
    RecordTy("Pair", map["a" := t, "b" := t])
  }

  /**
   * A conversion Rust accepts although its halves disagree: `as_ref`
   * returns `&self.a` while `as_mut` returns `&mut self.b`.
   */
  function SplitAsRef(t: Ty): Conversion {
    Conversion(PairTy(t), t,
      (x: Value) => if x.Record? && "a" in x.fields then x.fields["a"] else x,
      (x: Value) => if x.Record? && "b" in x.fields then x.fields["b"] else x,
      (x: Value, w: Value) => if x.Record? then Record(x.fields["b" := w]) else x)
  }

  /** The split conversion has the types its signatures promise. */
  lemma SplitAsRefTyped(t: Ty)
    ensures ConversionTyped(SplitAsRef(t))
  {
    var c := SplitAsRef(t);
    forall x, w | HasType(x, PairTy(t)) && HasType(w, t)
      ensures HasType(c.update(x, w), PairTy(t))
    {
      var fs := x.fields["b" := w];
      assert fs.Keys == PairTy(t).fieldTys.Keys;
      assert forall n | n in fs :: HasType(fs[n], PairTy(t).fieldTys[n]);
    }
  }

  /** `Pair { a: 1, b: 2 }`, and the same pair after writing 5 and after doubling through `as_mut`. */
  const PairBefore: Value := Record(map["a" := Scalar(1), "b" := Scalar(2)])
  const PairAfter: Value := Record(map["a" := Scalar(1), "b" := Scalar(5)])
  const PairDoubled: Value := Record(map["a" := Scalar(1), "b" := Scalar(4)])

  /**
   * The split conversion's halves disagree, and it breaks the laws: after
   * writing 5 the view still shows 1.
   */
  lemma SplitAsRefBreaksLaws()
    ensures !ConversionAgrees(SplitAsRef(U32))
    ensures !WellBehaved(SplitAsRef(U32))
  {
    var c := SplitAsRef(U32);
    assert HasType(PairBefore, PairTy(U32));
    assert c.mutView(PairBefore) == Scalar(2) && c.view(PairBefore) == Scalar(1);
    assert c.update(PairBefore, Scalar(5)) == PairAfter;
    assert c.view(PairAfter) == Scalar(1);
  }

  /**
   * At the root of a pair, `follow` through the split conversion reads `a`
   * and `follow_mut` hands out `b`, so writing 5 changes `b` and the path
   * still reads `a`.
   */
  lemma SplitAsRefWrite()
    ensures Follow(AsRef(Root, SplitAsRef(U32)), PairBefore) == Some(Scalar(1))
    ensures FollowMut(AsRef(Root, SplitAsRef(U32)), PairBefore) == Some(Scalar(2))
    ensures Write(AsRef(Root, SplitAsRef(U32)), PairBefore, Scalar(5)) == Some(PairAfter)
    ensures Follow(AsRef(Root, SplitAsRef(U32)), PairAfter) == Some(Scalar(1))
  {
    var p := AsRef(Root, SplitAsRef(U32));
    FollowStep(p, PairBefore);
    FollowMutStep(p, PairBefore);
    WriteUnfold(p, PairBefore, Scalar(5));
    assert PairBefore.fields["b" := Scalar(5)] == PairAfter.fields;
    FollowStep(p, PairAfter);
  }

  /**
   * A context accepts `update_value` through the split conversion. After
   * `apply` the write has gone to `b`, and the same path still reads `a`,
   * not the value written.
   */
  lemma SplitAsRefChange()
    ensures HasType(PairBefore, PairTy(U32))
    ensures Admissible(SetValue(AsRef(Root, SplitAsRef(U32)), Scalar(5)), PairTy(U32))
    ensures ApplyChange(SetValue(AsRef(Root, SplitAsRef(U32)), Scalar(5)), PairBefore) == PairAfter
    ensures Follow(AsRef(Root, SplitAsRef(U32)), PairAfter) == Some(Scalar(1))
  {
    var c := SetValue(AsRef(Root, SplitAsRef(U32)), Scalar(5));
    SplitAsRefTyped(U32);
    assert HasType(PairBefore, PairTy(U32));
    assert TypeOf(c.path, PairTy(U32)) == Some(U32);
    SplitAsRefWrite();
    ApplyChangeWrites(c, PairBefore);
  }

  /**
   * `update_value_with(path, |value| *value *= 2)` through the split
   * conversion doubles `b`, the value `as_mut` hands to the closure, and
   * leaves `a` as it was.
   */
  lemma SplitAsRefUpdate()
    ensures Admissible(Transform(AsRef(Root, SplitAsRef(U32)), Double), PairTy(U32))
    ensures ApplyChange(Transform(AsRef(Root, SplitAsRef(U32)), Double), PairBefore) == PairDoubled
  {
    var c := Transform(AsRef(Root, SplitAsRef(U32)), Double);
    SplitAsRefTyped(U32);
    assert TypeOf(c.path, PairTy(U32)) == Some(U32);
    SplitAsRefWrite();
    WriteUnfold(c.path, PairBefore, Scalar(4));
    assert PairBefore.fields["b" := Scalar(4)] == PairDoubled.fields;
    ApplyChangeWrites(c, PairBefore);
  }

  /** `Pair { a: vec![1], b: vec![] }`. */
  const VecPair: Value := Record(map["a" := Vec([Scalar(1)]), "b" := Vec([])])

  /**
   * Below a split conversion `follow` and `follow_mut` disagree on whether
   * a path resolves: `path_as_ref().index(0)` reads `a[0]`, but its
   * `follow_mut` looks in the empty `b` and fails, so no write through it
   * succeeds.
   */
  lemma SplitIndexReadsOnly(v: Value)
    ensures HasType(VecPair, PairTy(VecTy(U32))) && ConversionTyped(SplitAsRef(VecTy(U32)))
    ensures TypeOf(VecIndex(AsRef(Root, SplitAsRef(VecTy(U32))), 0), PairTy(VecTy(U32))) == Some(U32)
    ensures Follow(VecIndex(AsRef(Root, SplitAsRef(VecTy(U32))), 0), VecPair) == Some(Scalar(1))
    ensures Write(VecIndex(AsRef(Root, SplitAsRef(VecTy(U32))), 0), VecPair, v).None?
  {
    var a := AsRef(Root, SplitAsRef(VecTy(U32)));
    var p := VecIndex(a, 0);
    SplitAsRefTyped(VecTy(U32));
    assert HasType(Vec([Scalar(1)]), VecTy(U32));
    FollowStep(a, VecPair);
    FollowMutStep(a, VecPair);
    FollowStep(p, VecPair);
    WriteUnfold(p, VecPair, v);
  }

  /** `State { inner: Box::new(TestItem { value: 42 }) }`. */
  const ExampleState: Value := Record(map["inner" := Boxed(ItemWithValue(42))])

  const ExampleStateTy: Ty := RecordTy("State", map["inner" := BoxTy(ItemWithValueTy)])

  /** `inner().path_as_ref()` is safe and selects `TestItem { value: 42 }`. */
  lemma Example()
    ensures HasType(ExampleState, ExampleStateTy)
    ensures TypeOf(AsRef(Field(Root, "inner"), BoxAsRef(ItemWithValueTy)), ExampleStateTy) == Some(ItemWithValueTy)
    ensures SelectorSafe(PathSelector(AsRef(Field(Root, "inner"), BoxAsRef(ItemWithValueTy))))
    ensures Select(PathSelector(AsRef(Field(Root, "inner"), BoxAsRef(ItemWithValueTy))), ExampleState) == Some(ItemWithValue(42))
  {
    assert TypeOf(Field(Root, "inner"), ExampleStateTy) == Some(BoxTy(ItemWithValueTy));
    assert Follow(Field(Root, "inner"), ExampleState) == Some(Boxed(ItemWithValue(42)));
  }
}
