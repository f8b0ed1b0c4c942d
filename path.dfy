/**
 * The path algebra: typed, composable accessors that navigate into the state
 * tree and may fail.
 *
 * A Rust path is an immutable `Copy` value whose `follow` returns
 * `Option<&T>` and whose `follow_mut` returns `Option<&mut T>`. Here a path
 * is a `Path` value, `Follow` is `follow`, `FollowMut` is the target
 * `follow_mut` hands out, and `Write(p, s, v)` is `follow_mut` followed by
 * `*reference = v`: it yields the whole new state, or `None` when
 * `follow_mut` would have returned `None`. Every combinator first follows
 * its inner path and then narrows the result by one step (`Narrow`, and
 * `NarrowMut` for `follow_mut`); writing through it rebuilds that one step
 * (`Replace`) and writes the rebuilt parent back through the inner path.
 * The two directions differ only at `path_as_ref()`, which goes through
 * `as_ref` for `follow` and through `as_mut` for `follow_mut`.
 */
module Paths {
  import opened Wrappers
  import opened StateTree

  /**
   * An `AsRef<Target> + AsMut<Target>` conversion from values of type
   * `source` to values of type `target`: `view` is what `as_ref` returns,
   * `mutView` is what the reference `as_mut` returns points at, and
   * `update(x, w)` is the value `x` becomes when `w` is written through
   * `x.as_mut()`. The two traits are implemented separately, so `view` and
   * `mutView` need not be the same part of `x`.
   */
  datatype Conversion = Conversion(
    source: Ty,
    target: Ty,
    view: Value -> Value,
    mutView: Value -> Value,
    update: (Value, Value) -> Value)

  /**
   * What the signatures `fn as_ref(&self) -> &Target` and
   * `fn as_mut(&mut self) -> &mut Target` guarantee, and so what Rust
   * enforces of every conversion: both views have the target type, and
   * writing a value of the target type leaves a value of the source type.
   */
  ghost predicate ConversionTyped(c: Conversion) {
    && (forall x :: HasType(x, c.source) ==> HasType(c.view(x), c.target))
    && (forall x :: HasType(x, c.source) ==> HasType(c.mutView(x), c.target))
    && (forall x, w :: HasType(x, c.source) && HasType(w, c.target) ==> HasType(c.update(x, w), c.source))
  }

  /** `as_mut` points at what `as_ref` shows, which Rust does not enforce. */
  ghost predicate ConversionAgrees(c: Conversion) {
    forall x :: HasType(x, c.source) ==> c.mutView(x) == c.view(x)
  }

  /**
   * `as_ref` and `as_mut` agree and behave like one accessor, which Rust
   * does not enforce: what is written is what the view then shows, writing
   * the view back changes nothing, and a second write overrides the first.
   */
  ghost predicate WellBehaved(c: Conversion) {
    && ConversionTyped(c)
    && ConversionAgrees(c)
    && (forall x, w :: HasType(x, c.source) && HasType(w, c.target) ==> c.view(c.update(x, w)) == w)
    && (forall x :: HasType(x, c.source) ==> c.update(x, c.view(x)) == x)
    && (forall x, w, w' :: HasType(x, c.source) && HasType(w, c.target) ==>
          c.update(c.update(x, w), w') == c.update(x, w'))
  }

  /**
   * Paths. `Root` and `Field` are what the derive macro emits for the root
   * struct and for each struct field; the others are the combinators
   * `.index(i)`, `.lookup(id)` on a `Vec`, `.lookup(key)` on a `HashMap`,
   * `.array_index(i)`, `.unwrapped()`, `.unboxed()`, `.path_as_ref()`,
   * `.downcast::<To>()` and `.manually_asserted()`. `getId` is the item
   * type's `VecItem::get_id`.
   */
  datatype Path =
    | Root
    | Field(inner: Path, name: string)
    | VecIndex(inner: Path, index: nat)
    | VecLookup(inner: Path, getId: Value -> Key, id: Key)
    | MapLookup(inner: Path, key: Key)
    | ArrayIndex(inner: Path, index: nat)
    | Unwrapped(inner: Path)
    | Unboxed(inner: Path)
    | AsRef(inner: Path, conv: Conversion)
    | Downcast(inner: Path, to: Ty)
    | Asserted(inner: Path)

  /** A combinator that narrows its inner path's target by one step. */
  predicate IsStep(p: Path) {
    !p.Root? && !p.Asserted?
  }

  /** The position of the first item whose id is `id`: `iter().find(|e| e.get_id() == id)`. */
  function FindFirst(items: seq<Value>, getId: Value -> Key, id: Key): (r: Option<nat>)
    ensures r.Some? ==> r.value < |items| && getId(items[r.value]) == id
    ensures r.Some? ==> forall j :: 0 <= j < r.value ==> getId(items[j]) != id
    ensures r.None? ==> forall j :: 0 <= j < |items| ==> getId(items[j]) != id
  {
    if |items| == 0 then None
    else if getId(items[0]) == id then Some(0)
    else match FindFirst(items[1..], getId, id)
      case Some(i) => Some(i + 1)
      case None => None
  }

  /** An item that matches `id` with no match before it is the one `FindFirst` finds. */
  lemma FindFirstIs(items: seq<Value>, getId: Value -> Key, id: Key, i: nat)
    requires i < |items| && getId(items[i]) == id
    requires forall j :: 0 <= j < i ==> getId(items[j]) != id
    ensures FindFirst(items, getId, id) == Some(i)
  {
  }

  /** What a combinator's `follow` does once its inner path has reached `x`. */
  function Narrow(p: Path, x: Value): Option<Value>
    requires IsStep(p)
  {
    match p
    case Field(_, name) =>
      if x.Record? && name in x.fields then Some(x.fields[name]) else None
    case VecIndex(_, i) =>
      if x.Vec? && i < |x.items| then Some(x.items[i]) else None
    case VecLookup(_, getId, id) =>
      if !x.Vec? then None
      else (match FindFirst(x.items, getId, id)
        case Some(i) => Some(x.items[i])
        case None => None)
    case MapLookup(_, key) =>
      if x.Map? && key in x.entries then Some(x.entries[key]) else None
    case ArrayIndex(_, i) =>
      if x.Array? && i < |x.elems| then Some(x.elems[i]) else None
    case Unwrapped(_) =>
      if x.OptSome? then Some(x.content) else None
    case Unboxed(_) =>
      if x.Boxed? then Some(x.pointee) else None
    case AsRef(_, c) =>
      Some(c.view(x))
    case Downcast(_, to) =>
      if x.Dynamic? && x.ty == to then Some(x.payload) else None
  }

  /**
   * What a combinator's `follow_mut` does once its inner path's
   * `follow_mut` has reached `x`: what `Narrow` does, except that
   * `path_as_ref()` goes through `as_mut`.
   */
  function NarrowMut(p: Path, x: Value): Option<Value>
    requires IsStep(p)
  {
    if p.AsRef? then Some(p.conv.mutView(x)) else Narrow(p, x)
  }

  /**
   * What `x` becomes when `v` is written through the reference a
   * combinator's `follow_mut` hands out; `None` where `follow_mut` fails.
   */
  function Replace(p: Path, x: Value, v: Value): Option<Value>
    requires IsStep(p)
  {
    match p
    case Field(_, name) =>
      if x.Record? && name in x.fields then Some(Record(x.fields[name := v])) else None
    case VecIndex(_, i) =>
      if x.Vec? && i < |x.items| then Some(Vec(x.items[i := v])) else None
    case VecLookup(_, getId, id) =>
      if !x.Vec? then None
      else (match FindFirst(x.items, getId, id)
        case Some(i) => Some(Vec(x.items[i := v]))
        case None => None)
    case MapLookup(_, key) =>
      if x.Map? && key in x.entries then Some(Map(x.entries[key := v])) else None
    case ArrayIndex(_, i) =>
      if x.Array? && i < |x.elems| then Some(Array(x.elems[i := v])) else None
    case Unwrapped(_) =>
      if x.OptSome? then Some(OptSome(v)) else None
    case Unboxed(_) =>
      if x.Boxed? then Some(Boxed(v)) else None
    case AsRef(_, c) =>
      Some(c.update(x, v))
    case Downcast(_, to) =>
      if x.Dynamic? && x.ty == to then Some(Dynamic(x.ty, v)) else None
  }

  /** `p.follow(&s)`. */
  function Follow(p: Path, s: Value): Option<Value> {
    match p
    case Root => Some(s)
    case Asserted(q) => Follow(q, s)
    case _ =>
      match Follow(p.inner, s)
      case Some(x) => Narrow(p, x)
      case None => None
  }

  /** The target of `p.follow_mut(&mut s)`, the value its `&mut` points at. */
  function FollowMut(p: Path, s: Value): Option<Value> {
    match p
    case Root => Some(s)
    case Asserted(q) => FollowMut(q, s)
    case _ =>
      match FollowMut(p.inner, s)
      case Some(x) => NarrowMut(p, x)
      case None => None
  }

  /** The state after `*p.follow_mut(&mut s)? = v`; `None` when `follow_mut` fails. */
  function Write(p: Path, s: Value, v: Value): Option<Value> {
    match p
    case Root => Some(v)
    case Asserted(q) => Write(q, s, v)
    case _ =>
      match FollowMut(p.inner, s)
      case None => None
      case Some(x) =>
        match Replace(p, x, v)
        case Some(x') => Write(p.inner, s, x')
        case None => None
  }

  /** How `Follow` unfolds at a combinator. */
  lemma FollowStep(p: Path, s: Value)
    requires IsStep(p)
    ensures Follow(p, s) == if Follow(p.inner, s).Some? then Narrow(p, Follow(p.inner, s).value) else None
  {
  }

  /** How `FollowMut` unfolds at a combinator. */
  lemma FollowMutStep(p: Path, s: Value)
    requires IsStep(p)
    ensures FollowMut(p, s) == if FollowMut(p.inner, s).Some? then NarrowMut(p, FollowMut(p.inner, s).value) else None
  {
  }

  /** How `Write` unfolds at a combinator. */
  lemma WriteUnfold(p: Path, s: Value, v: Value)
    requires IsStep(p)
    ensures Write(p, s, v) ==
      if FollowMut(p.inner, s).Some? && Replace(p, FollowMut(p.inner, s).value, v).Some?
      then Write(p.inner, s, Replace(p, FollowMut(p.inner, s).value, v).value)
      else None
  {
  }

  /** A successful write through a combinator writes the rebuilt parent back through its inner path. */
  lemma WriteStep(p: Path, s: Value, v: Value)
    requires IsStep(p) && Write(p, s, v).Some?
    ensures FollowMut(p.inner, s).Some? && Replace(p, FollowMut(p.inner, s).value, v).Some?
    ensures Write(p, s, v) == Write(p.inner, s, Replace(p, FollowMut(p.inner, s).value, v).value)
  {
  }

  /** The state after applying `f` to the target `follow_mut` hands out. */
  function Update(p: Path, s: Value, f: Value -> Value): Option<Value> {
    match FollowMut(p, s)
    case Some(t) => Write(p, s, f(t))
    case None => None
  }

  /** `p.select(&s)`: a path's read-only view. `manually_asserted` delegates to its inner `select`. */
  function SelectPath(p: Path, s: Value): Option<Value> {
    if p.Asserted? then SelectPath(p.inner, s) else Follow(p, s)
  }

  /** The `SAFE` constant of a path's type: can navigation not fail? */
  function Safe(p: Path): bool {
    match p
    case Root => true
    case Field(q, _) => Safe(q)
    case VecIndex(_, _) => false
    case VecLookup(_, _, _) => false
    case MapLookup(_, _) => false
    case ArrayIndex(_, _) => false
    case Unwrapped(_) => false
    case Unboxed(q) => Safe(q)
    case AsRef(q, _) => Safe(q)
    case Downcast(_, _) => false
    case Asserted(_) => true
  }

  /** The target type of a combinator whose inner path targets `t`, if it applies to `t`. */
  function StepType(p: Path, t: Ty): Option<Ty>
    requires IsStep(p)
  {
    match p
    case Field(_, name) =>
      if t.RecordTy? && name in t.fieldTys then Some(t.fieldTys[name]) else None
    case VecIndex(_, _) => if t.VecTy? then Some(t.elemTy) else None
    case VecLookup(_, _, _) => if t.VecTy? then Some(t.elemTy) else None
    case MapLookup(_, _) => if t.MapTy? then Some(t.valueTy) else None
    case ArrayIndex(_, _) => if t.ArrayTy? then Some(t.elemTy) else None
    case Unwrapped(_) => if t.OptionTy? then Some(t.someTy) else None
    case Unboxed(_) => if t.BoxTy? then Some(t.pointeeTy) else None
    case AsRef(_, c) => if t == c.source then Some(c.target) else None
    case Downcast(_, _) => if t == AnyTy then Some(p.to) else None
  }

  /**
   * The target type of `p` from a root of type `root`, or `None` when the
   * Rust compiler would reject `p`: a combinator applied to the wrong type,
   * or `manually_asserted` applied to a path that is already safe.
   */
  function TypeOf(p: Path, root: Ty): Option<Ty> {
    match p
    case Root => Some(root)
    case Asserted(q) => if Safe(q) then None else TypeOf(q, root)
    case _ =>
      match TypeOf(p.inner, root)
      case Some(t) => StepType(p, t)
      case None => None
  }

  /** Every `path_as_ref` conversion on `p` has the types its signatures promise. */
  ghost predicate ConversionsTyped(p: Path) {
    match p
    case Root => true
    case AsRef(q, c) => ConversionTyped(c) && ConversionsTyped(q)
    case _ => ConversionsTyped(p.inner)
  }

  /** Every `path_as_ref` conversion on `p` has an `as_mut` that points at what its `as_ref` shows. */
  ghost predicate ConversionsAgree(p: Path) {
    match p
    case Root => true
    case AsRef(q, c) => ConversionAgrees(c) && ConversionsAgree(q)
    case _ => ConversionsAgree(p.inner)
  }

  /** Every `path_as_ref` conversion on `p` is well behaved. */
  ghost predicate ConversionsBehave(p: Path) {
    match p
    case Root => true
    case AsRef(q, c) => WellBehaved(c) && ConversionsBehave(q)
    case _ => ConversionsBehave(p.inner)
  }

  /** No `manually_asserted` on `p`. */
  predicate AssertionFree(p: Path) {
    match p
    case Root => true
    case Asserted(_) => false
    case _ => AssertionFree(p.inner)
  }

  /** No `Vec` lookup by id on `p`. */
  predicate LookupFree(p: Path) {
    match p
    case Root => true
    case VecLookup(_, _, _) => false
    case _ => LookupFree(p.inner)
  }

  /** What the typing and side conditions of a combinator say about its inner path. */
  lemma StepFacts(p: Path, root: Ty)
    requires IsStep(p) && TypeOf(p, root).Some?
    ensures TypeOf(p.inner, root).Some? && StepType(p, TypeOf(p.inner, root).value) == TypeOf(p, root)
    ensures ConversionsTyped(p) ==> ConversionsTyped(p.inner) && (p.AsRef? ==> ConversionTyped(p.conv))
    ensures ConversionsAgree(p) ==> ConversionsAgree(p.inner) && (p.AsRef? ==> ConversionAgrees(p.conv))
    ensures ConversionsBehave(p) ==> ConversionsBehave(p.inner) && (p.AsRef? ==> WellBehaved(p.conv))
    ensures LookupFree(p) ==> LookupFree(p.inner) && !p.VecLookup?
  {
  }

  /** Well-behaved conversions are in particular well typed and agree. */
  lemma BehavingIsTyped(p: Path)
    ensures ConversionsBehave(p) ==> ConversionsTyped(p) && ConversionsAgree(p)
  {
  }

  /** Writing `v` through `p` succeeds and `p` then reads `v`. */
  ghost predicate ReadsBack(p: Path, s: Value, v: Value) {
    Write(p, s, v).Some? && Follow(p, Write(p, s, v).value) == Some(v)
  }

  // ---------------------------------------------------------------------
  // follow and follow_mut
  // ---------------------------------------------------------------------

  /** One step: a combinator's `get_mut` succeeds exactly when writing through it does. */
  lemma NarrowMutIffReplace(p: Path, x: Value, v: Value)
    requires IsStep(p)
    ensures NarrowMut(p, x).Some? <==> Replace(p, x, v).Some?
  {
  }

  /** A write succeeds exactly when `follow_mut` returns `Some`, for every path and state. */
  lemma {:induction false} FollowMutIffWrite(p: Path, s: Value, v: Value)
    ensures FollowMut(p, s).Some? <==> Write(p, s, v).Some?
  {
    if p.Asserted? {
      FollowMutIffWrite(p.inner, s, v);
    } else if !p.Root? {
      FollowMutStep(p, s);
      WriteUnfold(p, s, v);
      if FollowMut(p.inner, s).Some? {
        var x := FollowMut(p.inner, s).value;
        NarrowMutIffReplace(p, x, v);
        if Replace(p, x, v).Some? {
          FollowMutIffWrite(p.inner, s, Replace(p, x, v).value);
        }
      }
    }
  }

  /**
   * Where every `as_mut` on a path points at what its `as_ref` shows,
   * `follow_mut` hands out the very target `follow` reads.
   */
  lemma {:induction false} FollowMutIsFollow(p: Path, root: Ty, s: Value)
    requires TypeOf(p, root).Some? && HasType(s, root) && ConversionsTyped(p) && ConversionsAgree(p)
    ensures FollowMut(p, s) == Follow(p, s)
  {
    if p.Asserted? {
      FollowMutIsFollow(p.inner, root, s);
    } else if !p.Root? {
      StepFacts(p, root);
      FollowMutIsFollow(p.inner, root, s);
      FollowStep(p, s);
      FollowMutStep(p, s);
      if p.AsRef? && Follow(p.inner, s).Some? {
        FollowTyped(p.inner, root, s);
      }
    }
  }

  /**
   * `follow` returns `Some` exactly when `follow_mut` does, on a
   * well-typed state and a path whose `as_mut`s point at what its
   * `as_ref`s show.
   */
  lemma FollowIffWrite(p: Path, root: Ty, s: Value, v: Value)
    requires TypeOf(p, root).Some? && HasType(s, root) && ConversionsTyped(p) && ConversionsAgree(p)
    ensures Follow(p, s).Some? <==> Write(p, s, v).Some?
  {
    FollowMutIsFollow(p, root, s);
    FollowMutIffWrite(p, s, v);
  }

  /**
   * On such a path an update succeeds exactly when `follow` does, and
   * applies its function to the target `follow` reads.
   */
  lemma FollowIffUpdate(p: Path, root: Ty, s: Value, f: Value -> Value)
    requires TypeOf(p, root).Some? && HasType(s, root) && ConversionsTyped(p) && ConversionsAgree(p)
    ensures Follow(p, s).Some? <==> Update(p, s, f).Some?
    ensures Follow(p, s).Some? ==> Update(p, s, f) == Write(p, s, f(Follow(p, s).value))
  {
    FollowMutIsFollow(p, root, s);
    if Follow(p, s).Some? {
      FollowMutIffWrite(p, s, f(Follow(p, s).value));
    }
  }

  /** `select` equals `follow` for every path, `manually_asserted` ones included. */
  lemma {:induction false} SelectAgreesWithFollow(p: Path, s: Value)
    ensures SelectPath(p, s) == Follow(p, s)
  {
    if p.Asserted? {
      SelectAgreesWithFollow(p.inner, s);
    }
  }

  // ---------------------------------------------------------------------
  // Typing
  // ---------------------------------------------------------------------

  /** One step preserves types: what a well-typed combinator narrows to has its target type. */
  lemma NarrowTyped(p: Path, x: Value, t: Ty)
    requires IsStep(p) && HasType(x, t) && StepType(p, t).Some?
    requires p.AsRef? ==> ConversionTyped(p.conv)
    ensures Narrow(p, x).Some? ==> HasType(Narrow(p, x).value, StepType(p, t).value)
    ensures NarrowMut(p, x).Some? ==> HasType(NarrowMut(p, x).value, StepType(p, t).value)
  {
  }

  /** One step preserves types: writing a well-typed value rebuilds a well-typed parent. */
  lemma ReplaceTyped(p: Path, x: Value, t: Ty, v: Value)
    requires IsStep(p) && HasType(x, t) && StepType(p, t).Some?
    requires HasType(v, StepType(p, t).value)
    requires p.AsRef? ==> ConversionTyped(p.conv)
    ensures Replace(p, x, v).Some? ==> HasType(Replace(p, x, v).value, t)
  {
    match p
    case Field(_, name) =>
      if x.Record? && name in x.fields {
        var fs := x.fields[name := v];
        assert forall n | n in fs :: HasType(fs[n], t.fieldTys[n]);
      }
    case VecIndex(_, i) =>
      if x.Vec? && i < |x.items| {
        var items := x.items[i := v];
        assert forall j | 0 <= j < |items| :: HasType(items[j], t.elemTy);
      }
    case VecLookup(_, getId, id) =>
      if x.Vec? && FindFirst(x.items, getId, id).Some? {
        var items := x.items[FindFirst(x.items, getId, id).value := v];
        assert forall j | 0 <= j < |items| :: HasType(items[j], t.elemTy);
      }
    case MapLookup(_, key) =>
      if x.Map? && key in x.entries {
        var m := x.entries[key := v];
        assert forall k | k in m :: HasType(m[k], t.valueTy);
      }
    case ArrayIndex(_, i) =>
      if x.Array? && i < |x.elems| {
        var elems := x.elems[i := v];
        assert forall j | 0 <= j < |elems| :: HasType(elems[j], t.elemTy);
      }
    case Unwrapped(_) =>
    case Unboxed(_) =>
    case AsRef(_, c) =>
    case Downcast(_, _) =>
  }

  /**
   * Following a well-typed path from a well-typed state, with `follow` or
   * with `follow_mut`, reaches a value of the path's target type.
   */
  lemma {:induction false} FollowTyped(p: Path, root: Ty, s: Value)
    requires TypeOf(p, root).Some? && HasType(s, root) && ConversionsTyped(p)
    ensures Follow(p, s).Some? ==> HasType(Follow(p, s).value, TypeOf(p, root).value)
    ensures FollowMut(p, s).Some? ==> HasType(FollowMut(p, s).value, TypeOf(p, root).value)
  {
    if p.Asserted? {
      FollowTyped(p.inner, root, s);
    } else if !p.Root? {
      StepFacts(p, root);
      FollowTyped(p.inner, root, s);
      FollowStep(p, s);
      FollowMutStep(p, s);
      if Follow(p.inner, s).Some? {
        NarrowTyped(p, Follow(p.inner, s).value, TypeOf(p.inner, root).value);
      }
      if FollowMut(p.inner, s).Some? {
        NarrowTyped(p, FollowMut(p.inner, s).value, TypeOf(p.inner, root).value);
      }
    }
  }

  /** Writing a value of the target type through a well-typed path leaves a well-typed state. */
  lemma {:induction false} WriteTyped(p: Path, root: Ty, s: Value, v: Value)
    requires TypeOf(p, root).Some? && HasType(s, root) && ConversionsTyped(p)
    requires HasType(v, TypeOf(p, root).value)
    ensures Write(p, s, v).Some? ==> HasType(Write(p, s, v).value, root)
  {
    if p.Asserted? {
      WriteTyped(p.inner, root, s, v);
    } else if !p.Root? && Write(p, s, v).Some? {
      WriteStep(p, s, v);
      var q := p.inner;
      var tq := TypeOf(q, root).value;
      var x := FollowMut(q, s).value;
      FollowTyped(q, root, s);
      ReplaceTyped(p, x, tq, v);
      WriteTyped(q, root, s, Replace(p, x, v).value);
    }
  }

  /** An update whose function keeps the target type leaves a well-typed state. */
  lemma UpdateTyped(p: Path, root: Ty, s: Value, f: Value -> Value)
    requires TypeOf(p, root).Some? && HasType(s, root) && ConversionsTyped(p)
    requires forall x :: HasType(x, TypeOf(p, root).value) ==> HasType(f(x), TypeOf(p, root).value)
    ensures Update(p, s, f).Some? ==> HasType(Update(p, s, f).value, root)
  {
    if FollowMut(p, s).Some? {
      FollowTyped(p, root, s);
      WriteTyped(p, root, s, f(FollowMut(p, s).value));
    }
  }

  // ---------------------------------------------------------------------
  // SAFE
  // ---------------------------------------------------------------------

  /**
   * What `SAFE` promises: a safe, well-typed path without `manually_asserted`
   * always reaches its target in a well-typed state, with `follow` and with
   * `follow_mut`.
   */
  lemma {:induction false} SafePathResolves(p: Path, root: Ty, s: Value)
    requires TypeOf(p, root).Some? && HasType(s, root) && ConversionsTyped(p)
    requires Safe(p) && AssertionFree(p)
    ensures Follow(p, s).Some? && FollowMut(p, s).Some?
  {
    match p
    case Root =>
    case Field(q, _) =>
      SafePathResolves(q, root, s);
      FollowTyped(q, root, s);
    case Unboxed(q) =>
      SafePathResolves(q, root, s);
      FollowTyped(q, root, s);
    case AsRef(q, _) =>
      SafePathResolves(q, root, s);
  }

  // ---------------------------------------------------------------------
  // Writing back the current target changes nothing
  // ---------------------------------------------------------------------

  /** One step: putting back what a combinator narrowed to restores the parent. */
  lemma ReplaceWithCurrent(p: Path, x: Value, t: Ty)
    requires IsStep(p) && HasType(x, t) && StepType(p, t).Some?
    requires p.AsRef? ==> WellBehaved(p.conv)
    requires Narrow(p, x).Some?
    ensures Replace(p, x, Narrow(p, x).value) == Some(x)
  {
    match p
    case Field(_, name) =>
      assert x.fields[name := x.fields[name]] == x.fields;
    case VecIndex(_, i) =>
      assert x.items[i := x.items[i]] == x.items;
    case VecLookup(_, getId, id) =>
      var i := FindFirst(x.items, getId, id).value;
      assert x.items[i := x.items[i]] == x.items;
    case MapLookup(_, key) =>
      assert x.entries[key := x.entries[key]] == x.entries;
    case ArrayIndex(_, i) =>
      assert x.elems[i := x.elems[i]] == x.elems;
    case Unwrapped(_) =>
    case Unboxed(_) =>
    case AsRef(_, c) =>
    case Downcast(_, _) =>
  }

  /**
   * A write only ever changes the target: writing the value a path already
   * reaches gives back the very same state.
   */
  lemma {:induction false} WriteCurrentIsIdentity(p: Path, root: Ty, s: Value)
    requires TypeOf(p, root).Some? && HasType(s, root) && ConversionsBehave(p)
    requires Follow(p, s).Some?
    ensures Write(p, s, Follow(p, s).value) == Some(s)
  {
    if p.Asserted? {
      WriteCurrentIsIdentity(p.inner, root, s);
    } else if !p.Root? {
      StepFacts(p, root);
      FollowStep(p, s);
      var x := Follow(p.inner, s).value;
      BehavingIsTyped(p.inner);
      FollowTyped(p.inner, root, s);
      FollowMutIsFollow(p.inner, root, s);
      ReplaceWithCurrent(p, x, TypeOf(p.inner, root).value);
      WriteCurrentIsIdentity(p.inner, root, s);
      WriteUnfold(p, s, Follow(p, s).value);
    }
  }

  // ---------------------------------------------------------------------
  // Composition
  // ---------------------------------------------------------------------

  /** `b` continued from the end of `a`: `b` with its `Root` replaced by `a`. */
  function Compose(a: Path, b: Path): Path {
    match b
    case Root => a
    case Field(q, name) => Field(Compose(a, q), name)
    case VecIndex(q, i) => VecIndex(Compose(a, q), i)
    case VecLookup(q, getId, id) => VecLookup(Compose(a, q), getId, id)
    case MapLookup(q, key) => MapLookup(Compose(a, q), key)
    case ArrayIndex(q, i) => ArrayIndex(Compose(a, q), i)
    case Unwrapped(q) => Unwrapped(Compose(a, q))
    case Unboxed(q) => Unboxed(Compose(a, q))
    case AsRef(q, c) => AsRef(Compose(a, q), c)
    case Downcast(q, to) => Downcast(Compose(a, q), to)
    case Asserted(q) => Asserted(Compose(a, q))
  }

  /** One step of a composed path narrows as the step it came from. */
  lemma ComposeNarrow(a: Path, b: Path, x: Value)
    requires IsStep(b)
    ensures IsStep(Compose(a, b)) && Compose(a, b).inner == Compose(a, b.inner)
    ensures Narrow(Compose(a, b), x) == Narrow(b, x)
    ensures NarrowMut(Compose(a, b), x) == NarrowMut(b, x)
  {
    match b
    case Field(_, _) =>
    case VecIndex(_, _) =>
    case VecLookup(_, _, _) =>
    case MapLookup(_, _) =>
    case ArrayIndex(_, _) =>
    case Unwrapped(_) =>
    case Unboxed(_) =>
    case AsRef(_, _) =>
    case Downcast(_, _) =>
  }

  /** One step of a composed path rebuilds its parent as the step it came from. */
  lemma ComposeReplace(a: Path, b: Path, x: Value, v: Value)
    requires IsStep(b)
    ensures IsStep(Compose(a, b))
    ensures Replace(Compose(a, b), x, v) == Replace(b, x, v)
  {
    match b
    case Field(_, _) =>
    case VecIndex(_, _) =>
    case VecLookup(_, _, _) =>
    case MapLookup(_, _) =>
    case ArrayIndex(_, _) =>
    case Unwrapped(_) =>
    case Unboxed(_) =>
    case AsRef(_, _) =>
    case Downcast(_, _) =>
  }

  /** One step of a composed path narrows and rebuilds exactly as the step it came from. */
  lemma ComposeStep(a: Path, b: Path, x: Value, v: Value)
    requires IsStep(b)
    ensures IsStep(Compose(a, b)) && Compose(a, b).inner == Compose(a, b.inner)
    ensures Narrow(Compose(a, b), x) == Narrow(b, x)
    ensures NarrowMut(Compose(a, b), x) == NarrowMut(b, x)
    ensures Replace(Compose(a, b), x, v) == Replace(b, x, v)
  {
    ComposeNarrow(a, b, x);
    ComposeReplace(a, b, x, v);
  }

  /** Following a composed path follows `a`, then `b` from where `a` arrived. */
  lemma {:induction false} ComposeFollows(a: Path, b: Path, s: Value)
    ensures Follow(Compose(a, b), s) ==
      if Follow(a, s).Some? then Follow(b, Follow(a, s).value) else None
  {
    if b.Asserted? {
      ComposeFollows(a, b.inner, s);
    } else if !b.Root? {
      ComposeFollows(a, b.inner, s);
      var c := Compose(a, b);
      ComposeNarrow(a, b, s);
      FollowStep(c, s);
      if Follow(c.inner, s).Some? {
        ComposeNarrow(a, b, Follow(c.inner, s).value);
      }
      if Follow(a, s).Some? {
        FollowStep(b, Follow(a, s).value);
      }
    }
  }

  /** `follow_mut` of a composed path is `a`'s `follow_mut`, then `b`'s from where `a`'s arrived. */
  lemma {:induction false} ComposeFollowsMut(a: Path, b: Path, s: Value)
    ensures FollowMut(Compose(a, b), s) ==
      if FollowMut(a, s).Some? then FollowMut(b, FollowMut(a, s).value) else None
  {
    if b.Asserted? {
      ComposeFollowsMut(a, b.inner, s);
    } else if !b.Root? {
      ComposeFollowsMut(a, b.inner, s);
      var c := Compose(a, b);
      ComposeNarrow(a, b, s);
      FollowMutStep(c, s);
      if FollowMut(c.inner, s).Some? {
        ComposeNarrow(a, b, FollowMut(c.inner, s).value);
      }
      if FollowMut(a, s).Some? {
        FollowMutStep(b, FollowMut(a, s).value);
      }
    }
  }

  /** Writing through a composed path writes through `b` inside what `a`'s `follow_mut` reaches, then writes that back through `a`. */
  lemma {:induction false} ComposeWrites(a: Path, b: Path, s: Value, v: Value)
    requires Write(Compose(a, b), s, v).Some?
    ensures FollowMut(a, s).Some? && Write(b, FollowMut(a, s).value, v).Some?
    ensures Write(Compose(a, b), s, v) == Write(a, s, Write(b, FollowMut(a, s).value, v).value)
  {
    if b.Asserted? {
      ComposeWrites(a, b.inner, s, v);
    } else if !b.Root? {
      var c := Compose(a, b);
      ComposeStep(a, b, s, v);
      WriteStep(c, s, v);
      var x := FollowMut(c.inner, s).value;
      ComposeStep(a, b, x, v);
      ComposeFollowsMut(a, b.inner, s);
      ComposeWrites(a, b.inner, s, Replace(b, x, v).value);
      var m := FollowMut(a, s).value;
      FollowMutStep(b, m);
      WriteUnfold(b, m, v);
    } else {
      FollowMutIffWrite(a, s, v);
    }
  }

  /** The step `p` takes, taken from the end of `q` instead of from `p.inner`. */
  function WithInner(p: Path, q: Path): (r: Path)
    requires !p.Root?
    ensures !r.Root? && r.inner == q
  {
    match p
    case Field(_, name) => Field(q, name)
    case VecIndex(_, i) => VecIndex(q, i)
    case VecLookup(_, getId, id) => VecLookup(q, getId, id)
    case MapLookup(_, key) => MapLookup(q, key)
    case ArrayIndex(_, i) => ArrayIndex(q, i)
    case Unwrapped(_) => Unwrapped(q)
    case Unboxed(_) => Unboxed(q)
    case AsRef(_, conv) => AsRef(q, conv)
    case Downcast(_, to) => Downcast(q, to)
    case Asserted(_) => Asserted(q)
  }

  /** Composing onto a step composes onto its inner path and keeps the step. */
  lemma ComposeUnfold(a: Path, p: Path)
    requires !p.Root?
    ensures Compose(a, p) == WithInner(p, Compose(a, p.inner))
  {
  }

  /** Re-rooting a step twice is re-rooting it once. */
  lemma WithInnerTwice(p: Path, q: Path, r: Path)
    requires !p.Root?
    ensures WithInner(WithInner(p, q), r) == WithInner(p, r)
  {
  }

  /** The inductive step of `ComposeAssociative`: a step added on the right keeps both sides equal. */
  lemma ComposeAssociativeStep(a: Path, b: Path, c: Path)
    requires !c.Root?
    requires Compose(Compose(a, b), c.inner) == Compose(a, Compose(b, c.inner))
    ensures Compose(Compose(a, b), c) == Compose(a, Compose(b, c))
  {
    ComposeUnfold(Compose(a, b), c);
    ComposeUnfold(b, c);
    ComposeUnfold(a, WithInner(c, Compose(b, c.inner)));
    WithInnerTwice(c, Compose(b, c.inner), Compose(a, Compose(b, c.inner)));
  }

  /** Composition is associative: continuing in two steps or in one builds the same path. */
  lemma {:induction false} ComposeAssociative(a: Path, b: Path, c: Path)
    ensures Compose(Compose(a, b), c) == Compose(a, Compose(b, c))
  {
    if !c.Root? {
      ComposeAssociative(a, b, c.inner);
      ComposeAssociativeStep(a, b, c);
    }
  }

  /** `Root` is the identity of composition on both sides. */
  lemma {:induction false} ComposeRootIdentity(a: Path)
    ensures Compose(Root, a) == a
    ensures Compose(a, Root) == a
  {
    if !a.Root? {
      ComposeRootIdentity(a.inner);
      ComposeUnfold(Root, a);
    }
  }

  /**
   * Since the paths are equal, both ways of composing three paths, and a
   * path composed after `Root`, navigate alike: `follow`, `follow_mut`,
   * writes, `SAFE` and the target type all agree.
   */
  lemma ComposeNavigatesAlike(a: Path, b: Path, c: Path, root: Ty, s: Value, v: Value)
    ensures Follow(Compose(Compose(a, b), c), s) == Follow(Compose(a, Compose(b, c)), s)
    ensures FollowMut(Compose(Compose(a, b), c), s) == FollowMut(Compose(a, Compose(b, c)), s)
    ensures Write(Compose(Compose(a, b), c), s, v) == Write(Compose(a, Compose(b, c)), s, v)
    ensures Safe(Compose(Compose(a, b), c)) == Safe(Compose(a, Compose(b, c)))
    ensures TypeOf(Compose(Compose(a, b), c), root) == TypeOf(Compose(a, Compose(b, c)), root)
    ensures Follow(Compose(Root, a), s) == Follow(a, s)
    ensures FollowMut(Compose(Root, a), s) == FollowMut(a, s)
    ensures Write(Compose(Root, a), s, v) == Write(a, s, v)
    ensures Safe(Compose(Root, a)) == Safe(a)
    ensures TypeOf(Compose(Root, a), root) == TypeOf(a, root)
  {
    ComposeAssociative(a, b, c);
    ComposeRootIdentity(a);
  }

  /**
   * Composing two safe paths gives a safe path, and continuing with an
   * unsafe path gives an unsafe one. Without `manually_asserted` in `b` a
   * composed path is safe exactly when both parts are; a `manually_asserted`
   * at the end of `b` makes it safe even when `a` is not.
   */
  lemma {:induction false} ComposeSafe(a: Path, b: Path)
    ensures Safe(a) && Safe(b) ==> Safe(Compose(a, b))
    ensures Safe(Compose(a, b)) ==> Safe(b)
    ensures AssertionFree(b) ==> Safe(Compose(a, b)) == (Safe(a) && Safe(b))
    ensures b.Asserted? ==> Safe(Compose(a, b))
  {
    match b
    case Root =>
    case Field(q, _) => ComposeSafe(a, q);
    case Unboxed(q) => ComposeSafe(a, q);
    case AsRef(q, _) => ComposeSafe(a, q);
    case Asserted(_) =>
    case _ =>
  }

  // ---------------------------------------------------------------------
  // Selectors
  // ---------------------------------------------------------------------

  /** What `Context::get` and `try_get` accept: a path, or any value standing for itself. */
  datatype Selector = PathSelector(path: Path) | ValueSelector(value: Value)

  /** `selector.select(&s)`. */
  function Select(sel: Selector, s: Value): Option<Value> {
    match sel
    case PathSelector(p) => SelectPath(p, s)
    case ValueSelector(v) => Some(v)
  }

  /** The selector's `SAFE`: a path's own, and `true` (the default) for a value. */
  function SelectorSafe(sel: Selector): bool {
    match sel
    case PathSelector(p) => Safe(p)
    case ValueSelector(_) => true
  }

  /** A value selects itself whatever the state, and that selector is safe. */
  lemma ValueSelectsItself(v: Value, s: Value)
    ensures Select(ValueSelector(v), s) == Some(v)
    ensures SelectorSafe(ValueSelector(v))
  {
  }

  /** Every path is a selector with the same `SAFE` whose `select` is its `follow`. */
  lemma PathIsSelector(p: Path, s: Value)
    ensures SelectorSafe(PathSelector(p)) == Safe(p)
    ensures Select(PathSelector(p), s) == Follow(p, s)
  {
    SelectAgreesWithFollow(p, s);
  }
}
