/**
 * The lens laws of the path algebra, which together say that a write through
 * a path changes its target and nothing else:
 *
 *  - GetPut (`Paths.WriteCurrentIsIdentity`): writing back what a path reads
 *    leaves the state as it was;
 *  - PutGet (`WriteThenFollow`): after a write the path reads what was written;
 *  - PutPut (`WriteTwice`): a second write through the same path overrides the
 *    first completely;
 *  - frame (`WriteLeavesApart`): a write below one field, index or key leaves
 *    everything below a sibling field, index or key as it was.
 *
 * PutGet and PutPut are stated for paths without a `Vec` lookup by id: such a
 * lookup finds its item again only when the write keeps the item's id, which
 * `VecPaths.LookupFollowMut` states one level at a time.
 */
module PathLaws {
  import opened Wrappers
  import opened StateTree
  import opened Paths

  /** One step of PutGet: the rebuilt parent narrows to the value written. */
  lemma ReplaceThenNarrow(p: Path, x: Value, t: Ty, v: Value)
    requires IsStep(p) && HasType(x, t) && StepType(p, t).Some?
    requires HasType(v, StepType(p, t).value)
    requires p.AsRef? ==> WellBehaved(p.conv)
    requires p.VecLookup? ==> p.getId(v) == p.id
    requires Replace(p, x, v).Some?
    ensures Narrow(p, Replace(p, x, v).value) == Some(v)
  {
    match p
    case Field(_, _) =>
    case VecIndex(_, _) =>
    case VecLookup(_, getId, id) =>
      var i := FindFirst(x.items, getId, id).value;
      var items := x.items[i := v];
      FindFirstIs(items, getId, id, i);
    case MapLookup(_, _) =>
    case ArrayIndex(_, _) =>
    case Unwrapped(_) =>
    case Unboxed(_) =>
    case AsRef(_, _) =>
    case Downcast(_, _) =>
  }

  /** One step of PutPut: rebuilding the parent twice keeps only the second value. */
  lemma ReplaceTwice(p: Path, x: Value, t: Ty, v: Value, w: Value)
    requires IsStep(p) && HasType(x, t) && StepType(p, t).Some?
    requires HasType(v, StepType(p, t).value)
    requires p.AsRef? ==> WellBehaved(p.conv)
    requires p.VecLookup? ==> p.getId(v) == p.id
    requires Replace(p, x, v).Some?
    ensures Replace(p, Replace(p, x, v).value, w) == Replace(p, x, w)
  {
    match p
    case Field(_, name) =>
      assert x.fields[name := v][name := w] == x.fields[name := w];
    case VecIndex(_, i) =>
      assert x.items[i := v][i := w] == x.items[i := w];
    case VecLookup(_, getId, id) =>
      var i := FindFirst(x.items, getId, id).value;
      var items := x.items[i := v];
      FindFirstIs(items, getId, id, i);
      assert items[i := w] == x.items[i := w];
    case MapLookup(_, key) =>
      assert x.entries[key := v][key := w] == x.entries[key := w];
    case ArrayIndex(_, i) =>
      assert x.elems[i := v][i := w] == x.elems[i := w];
    case Unwrapped(_) =>
    case Unboxed(_) =>
    case AsRef(_, _) =>
    case Downcast(_, _) =>
  }

  /**
   * PutGet: writing a value of the target type through a well-typed path
   * that resolves succeeds, and the path then reads exactly that value.
   */
  lemma {:induction false} WriteThenFollow(p: Path, root: Ty, s: Value, v: Value)
    requires TypeOf(p, root).Some? && HasType(s, root) && ConversionsBehave(p) && LookupFree(p)
    requires HasType(v, TypeOf(p, root).value)
    requires Follow(p, s).Some?
    ensures ReadsBack(p, s, v)
  {
    if p.Asserted? {
      WriteThenFollow(p.inner, root, s, v);
    } else if !p.Root? {
      StepFacts(p, root);
      FollowStep(p, s);
      var q := p.inner;
      var tq := TypeOf(q, root).value;
      var x := Follow(q, s).value;
      BehavingIsTyped(q);
      FollowTyped(q, root, s);
      FollowMutIsFollow(q, root, s);
      NarrowMutIffReplace(p, x, v);
      ReplaceTyped(p, x, tq, v);
      var x' := Replace(p, x, v).value;
      WriteThenFollow(q, root, s, x');
      var s' := Write(q, s, x').value;
      WriteUnfold(p, s, v);
      assert Write(p, s, v) == Some(s');
      ReplaceThenNarrow(p, x, tq, v);
      FollowStep(p, s');
      assert Follow(p, s') == Some(v);
    }
  }

  /** PutPut: writing twice through the same path is writing the second value once. */
  lemma {:induction false} WriteTwice(p: Path, root: Ty, s: Value, v: Value, w: Value)
    requires TypeOf(p, root).Some? && HasType(s, root) && ConversionsBehave(p) && LookupFree(p)
    requires HasType(v, TypeOf(p, root).value)
    requires Write(p, s, v).Some?
    ensures Write(p, Write(p, s, v).value, w) == Write(p, s, w)
  {
    if p.Asserted? {
      WriteTwice(p.inner, root, s, v, w);
    } else if !p.Root? {
      WriteStep(p, s, v);
      var q := p.inner;
      var tq := TypeOf(q, root).value;
      var x := FollowMut(q, s).value;
      BehavingIsTyped(q);
      FollowTyped(q, root, s);
      FollowMutIsFollow(q, root, s);
      ReplaceTyped(p, x, tq, v);
      var x1 := Replace(p, x, v).value;
      var s1 := Write(q, s, x1).value;
      WriteThenFollow(q, root, s, x1);
      WriteTyped(q, root, s, x1);
      FollowMutIsFollow(q, root, s1);
      ReplaceTwice(p, x, tq, v, w);
      WriteUnfold(p, s1, w);
      WriteUnfold(p, s, w);
      if Replace(p, x, w).Some? {
        WriteTwice(q, root, s, x1, Replace(p, x, w).value);
      }
    }
  }

  /**
   * Two combinators on the same inner path that reach different parts of
   * its target: different fields, different positions of a `Vec` or an
   * array, or different keys of a map.
   */
  ghost predicate Apart(p1: Path, p2: Path) {
    match (p1, p2)
    case (Field(q1, n1), Field(q2, n2)) => q1 == q2 && n1 != n2
    case (VecIndex(q1, i1), VecIndex(q2, i2)) => q1 == q2 && i1 != i2
    case (ArrayIndex(q1, i1), ArrayIndex(q2, i2)) => q1 == q2 && i1 != i2
    case (MapLookup(q1, k1), MapLookup(q2, k2)) => q1 == q2 && k1 != k2
    case _ => false
  }

  /** One step of the frame property: rebuilding one part of a parent leaves an apart part as it was. */
  lemma ReplaceLeavesApart(p1: Path, p2: Path, x: Value, v: Value)
    requires Apart(p1, p2) && Replace(p1, x, v).Some?
    ensures Narrow(p2, Replace(p1, x, v).value) == Narrow(p2, x)
  {
  }

  /**
   * The frame property: a write below `p1` leaves every path continuing
   * from an apart `p2` reading what it read before.
   */
  lemma WriteLeavesApart(p1: Path, p2: Path, r: Path, root: Ty, s: Value, v: Value)
    requires Apart(p1, p2)
    requires TypeOf(p1, root).Some? && HasType(s, root) && ConversionsBehave(p1) && LookupFree(p1)
    requires HasType(v, TypeOf(p1, root).value)
    requires Write(p1, s, v).Some?
    ensures Follow(Compose(p2, r), Write(p1, s, v).value) == Follow(Compose(p2, r), s)
  {
    var q := p1.inner;
    var s' := Write(p1, s, v).value;
    WriteStep(p1, s, v);
    var x := FollowMut(q, s).value;
    BehavingIsTyped(q);
    FollowTyped(q, root, s);
    FollowMutIsFollow(q, root, s);
    ReplaceTyped(p1, x, TypeOf(q, root).value, v);
    WriteThenFollow(q, root, s, Replace(p1, x, v).value);
    ReplaceLeavesApart(p1, p2, x, v);
    FollowStep(p2, s);
    FollowStep(p2, s');
    ComposeFollows(p2, r, s);
    ComposeFollows(p2, r, s');
  }
}
