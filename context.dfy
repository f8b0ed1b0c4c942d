/**
 * The `Context`: it owns the root state and a queue of pending changes.
 * The enqueueing methods only record a change; `apply` runs the queue in
 * order, each change against the state the previous one left. A change
 * whose path does not resolve when it runs leaves the state as it is (the
 * Rust code prints "Failed to update state" instead).
 */
module Contexts {
  import opened Wrappers
  import opened StateTree
  import opened Paths
  import PathLaws

  /** A queued change: the closure each enqueueing method boxes up, with what it captured. */
  datatype Change =
    | SetValue(path: Path, value: Value)
    | Transform(path: Path, f: Value -> Value)
    | VecPush(path: Path, item: Value)
    | VecRemove(path: Path, getId: Value -> Key, id: Key)
    | MapInsert(path: Path, key: Key, value: Value)
    | MapRemove(path: Path, key: Key)

  /** `items.retain(|item| item.get_id() != id)`: the items whose id is not `id`, in their order. */
  function Retain(items: seq<Value>, getId: Value -> Key, id: Key): seq<Value> {
    if |items| == 0 then []
    else (if getId(items[0]) != id then [items[0]] else []) + Retain(items[1..], getId, id)
  }

  /**
   * `retain` drops every item with id `id` and keeps every other item as
   * often as it occurs; when no item has that id it changes nothing.
   */
  lemma {:induction false} RetainCounts(items: seq<Value>, getId: Value -> Key, id: Key)
    ensures forall x :: multiset(Retain(items, getId, id))[x] == if getId(x) == id then 0 else multiset(items)[x]
    ensures (forall j :: 0 <= j < |items| ==> getId(items[j]) != id) ==> Retain(items, getId, id) == items
  {
    if |items| != 0 {
      RetainCounts(items[1..], getId, id);
      assert items == [items[0]] + items[1..];
    }
  }

  /**
   * What a change does to its target, the value behind the `&mut` that
   * `follow_mut` hands out. In a well-typed state the target of `VecPush`
   * and `VecRemove` is a `Vec` and that of `MapInsert` and `MapRemove` a map.
   */
  function Effect(c: Change, t: Value): (r: Value)
    ensures c.SetValue? ==> r == c.value
    ensures c.Transform? ==> r == c.f(t)
    ensures c.VecPush? && t.Vec? ==>
      r.Vec? && |r.items| == |t.items| + 1 && r.items[..|t.items|] == t.items && r.items[|t.items|] == c.item
    ensures c.VecRemove? && t.Vec? ==>
      r.Vec? && forall x :: multiset(r.items)[x] == if c.getId(x) == c.id then 0 else multiset(t.items)[x]
    ensures c.MapInsert? && t.Map? ==>
      r.Map? && r.entries.Keys == t.entries.Keys + {c.key} && r.entries[c.key] == c.value &&
      forall k :: k in t.entries && k != c.key ==> r.entries[k] == t.entries[k]
    ensures c.MapRemove? && t.Map? ==>
      r.Map? && r.entries.Keys == t.entries.Keys - {c.key} &&
      forall k :: k in r.entries ==> r.entries[k] == t.entries[k]
  {
    match c
    case SetValue(_, v) => v
    case Transform(_, f) => f(t)
    case VecPush(_, item) => if t.Vec? then Vec(t.items + [item]) else t
    case VecRemove(_, getId, id) =>
      if t.Vec? then RetainCounts(t.items, getId, id); Vec(Retain(t.items, getId, id)) else t
    case MapInsert(_, key, v) => if t.Map? then Map(t.entries[key := v]) else t
    case MapRemove(_, key) => if t.Map? then Map(t.entries - {key}) else t
  }

  /** Running one queued change: `match path.follow_mut(state)`, with a failed match a no-op. */
  function ApplyChange(c: Change, s: Value): Value {
    match Update(c.path, s, t => Effect(c, t))
    case Some(s') => s'
    case None => s
  }

  /** Running a queue of changes front to back, each on the state the previous one left. */
  function ApplyAll(cs: seq<Change>, s: Value): Value {
    if |cs| == 0 then s else ApplyAll(cs[1..], ApplyChange(cs[0], s))
  }

  /**
   * What the Rust compiler accepts for a change on a root of type `root`:
   * its path type-checks and is safe (every enqueueing method asks for a
   * `Path<State, _>` with the default `SAFE = true`), and what it writes has
   * the target's type.
   */
  ghost predicate Admissible(c: Change, root: Ty) {
    && TypeOf(c.path, root).Some?
    && Safe(c.path)
    && ConversionsTyped(c.path)
    && var t := TypeOf(c.path, root).value;
    match c
    case SetValue(_, v) => HasType(v, t)
    case Transform(_, f) => forall x :: HasType(x, t) ==> HasType(f(x), t)
    case VecPush(_, item) => t.VecTy? && HasType(item, t.elemTy)
    case VecRemove(_, _, _) => t.VecTy?
    case MapInsert(_, _, v) => t.MapTy? && HasType(v, t.valueTy)
    case MapRemove(_, _) => t.MapTy?
  }

  class Context {
    /** The root state. */
    var state: Value
    /** The pending changes, oldest first. */
    var queue: seq<Change>
    /** The root state's type, the `State` of `Context<State>`. */
    ghost const rootTy: Ty

    /** The state has the root type and every pending change type-checks against it. */
    ghost predicate Valid()
      reads this
    {
      HasType(state, rootTy) && forall c <- queue :: Admissible(c, rootTy)
    }

    /** `Context::new(state)`: the given state and no pending changes. */
    constructor(s: Value, ghost ty: Ty)
      requires HasType(s, ty)
      ensures state == s && queue == [] && rootTy == ty
      ensures Valid()
    {
      state := s;
      queue := [];
      rootTy := ty;
    }

    /** `push_change`: append a change to the queue and leave the state alone. */
    method PushChange(c: Change)
      requires Valid() && Admissible(c, rootTy)
      modifies this
      ensures state == old(state) && queue == old(queue) + [c]
      ensures Valid()
    {
      queue := queue + [c];
    }

    /** `update_value(path, value)`: queue setting the target to `value`. */
    method UpdateValue(path: Path, value: Value)
      requires Valid() && Admissible(SetValue(path, value), rootTy)
      modifies this
      ensures state == old(state) && queue == old(queue) + [SetValue(path, value)]
      ensures Valid()
    {
      PushChange(SetValue(path, value));
    }

    /** `update_value_with(path, closure)`: queue applying `f` to the target. */
    method UpdateValueWith(path: Path, f: Value -> Value)
      requires Valid() && Admissible(Transform(path, f), rootTy)
      modifies this
      ensures state == old(state) && queue == old(queue) + [Transform(path, f)]
      ensures Valid()
    {
      PushChange(Transform(path, f));
    }

    /** `vec_push(path, value)`: queue pushing `item` onto the target `Vec`. */
    method VecPushItem(path: Path, item: Value)
      requires Valid() && Admissible(VecPush(path, item), rootTy)
      modifies this
      ensures state == old(state) && queue == old(queue) + [VecPush(path, item)]
      ensures Valid()
    {
      PushChange(VecPush(path, item));
    }

    /** `vec_remove(path, id)`: queue removing every item with id `id` from the target `Vec`. */
    method VecRemoveItem(path: Path, getId: Value -> Key, id: Key)
      requires Valid() && Admissible(VecRemove(path, getId, id), rootTy)
      modifies this
      ensures state == old(state) && queue == old(queue) + [VecRemove(path, getId, id)]
      ensures Valid()
    {
      PushChange(VecRemove(path, getId, id));
    }

    /** `map_insert(path, id, value)`: queue inserting `value` under `key` into the target map. */
    method MapInsertItem(path: Path, key: Key, value: Value)
      requires Valid() && Admissible(MapInsert(path, key, value), rootTy)
      modifies this
      ensures state == old(state) && queue == old(queue) + [MapInsert(path, key, value)]
      ensures Valid()
    {
      PushChange(MapInsert(path, key, value));
    }

    /** `map_remove(path, id)`: queue removing `key` from the target map. */
    method MapRemoveItem(path: Path, key: Key)
      requires Valid() && Admissible(MapRemove(path, key), rootTy)
      modifies this
      ensures state == old(state) && queue == old(queue) + [MapRemove(path, key)]
      ensures Valid()
    {
      PushChange(MapRemove(path, key));
    }

    /**
     * `apply()`: drain the queue front to back, running each change on the
     * state the previous one left.
     */
    method Apply()
      requires Valid()
      modifies this
      ensures state == ApplyAll(old(queue), old(state)) && queue == []
      ensures Valid()
    {
      while queue != []
        invariant ApplyAll(queue, state) == ApplyAll(old(queue), old(state))
        invariant Valid()
        decreases |queue|
      {
        var c := queue[0];
        queue := queue[1..];
        ApplyChangeTyped(c, rootTy, state);
        state := ApplyChange(c, state);
      }
    }

    /** `get(selector)`: what a safe selector selects; Rust panics when it selects nothing. */
    function Get(sel: Selector): (r: Value)
      reads this
      requires SelectorSafe(sel) && Select(sel, state).Some?
      ensures Select(sel, state) == Some(r)
    {
      Select(sel, state).value
    }

    /** `try_get(selector)`: what an unsafe selector selects, if anything. */
    function TryGet(sel: Selector): (r: Option<Value>)
      reads this
      requires !SelectorSafe(sel)
      ensures r == Select(sel, state)
      ensures r.Some? ==> sel.PathSelector? && Follow(sel.path, state) == r
    {
      PathIsSelector(sel.path, state);
      Select(sel, state)
    }

    /** `try_get_any(path)`: `follow` on the state, for a path of either `SAFE`. */
    function TryGetAny(path: Path): (r: Option<Value>)
      reads this
      ensures r == Follow(path, state)
      ensures r == Select(PathSelector(path), state)
    {
      PathIsSelector(path, state);
      Follow(path, state)
    }
  }

  /**
   * `get` does not panic on a safe selector that is a value, or a
   * well-typed path without `manually_asserted`, in a well-typed state; a
   * value selector gets itself.
   */
  lemma SafeSelectorSelects(sel: Selector, root: Ty, s: Value)
    requires HasType(s, root) && SelectorSafe(sel)
    requires sel.PathSelector? ==>
      TypeOf(sel.path, root).Some? && ConversionsTyped(sel.path) && AssertionFree(sel.path)
    ensures Select(sel, s).Some?
    ensures sel.ValueSelector? ==> Select(sel, s) == Some(sel.value)
  {
    if sel.PathSelector? {
      PathIsSelector(sel.path, s);
      SafePathResolves(sel.path, root, s);
    }
  }

  // ---------------------------------------------------------------------
  // Running changes
  // ---------------------------------------------------------------------

  /** An admissible change's effect keeps its target's type. */
  lemma EffectTyped(c: Change, root: Ty, t: Value)
    requires Admissible(c, root) && HasType(t, TypeOf(c.path, root).value)
    ensures HasType(Effect(c, t), TypeOf(c.path, root).value)
  {
    var ty := TypeOf(c.path, root).value;
    match c
    case SetValue(_, _) =>
    case Transform(_, _) =>
    case VecPush(_, item) =>
      var items := t.items + [item];
      assert forall j | 0 <= j < |items| :: HasType(items[j], ty.elemTy) by {
        forall j | 0 <= j < |items|
          ensures HasType(items[j], ty.elemTy)
        {
          if j < |t.items| {
            assert items[j] == t.items[j];
          }
        }
      }
    case VecRemove(_, getId, id) =>
      var items := Retain(t.items, getId, id);
      RetainKeepsExactlyOthers(t.items, getId, id);
      forall j | 0 <= j < |items|
        ensures HasType(items[j], ty.elemTy)
      {
        assert items[j] in t.items;
      }
    case MapInsert(_, key, v) =>
    case MapRemove(_, key) =>
  }

  /** Running an admissible change on a well-typed state leaves a well-typed state. */
  lemma ApplyChangeTyped(c: Change, root: Ty, s: Value)
    requires Admissible(c, root) && HasType(s, root)
    ensures HasType(ApplyChange(c, s), root)
  {
    var f := t => Effect(c, t);
    var ty := TypeOf(c.path, root).value;
    forall x | HasType(x, ty)
      ensures HasType(f(x), ty)
    {
      EffectTyped(c, root, x);
    }
    UpdateTyped(c.path, root, s, f);
  }

  /**
   * A change runs through `follow_mut`: when its path's `follow_mut`
   * resolves, the state becomes the write, through that path, of the effect
   * on the target `follow_mut` hands out; otherwise the state stays as it
   * was.
   */
  lemma ApplyChangeWrites(c: Change, s: Value)
    ensures FollowMut(c.path, s).Some? ==>
      Write(c.path, s, Effect(c, FollowMut(c.path, s).value)).Some? &&
      ApplyChange(c, s) == Write(c.path, s, Effect(c, FollowMut(c.path, s).value)).value
    ensures FollowMut(c.path, s).None? ==> ApplyChange(c, s) == s
  {
    if FollowMut(c.path, s).Some? {
      FollowMutIffWrite(c.path, s, Effect(c, FollowMut(c.path, s).value));
    }
  }

  /** A safe path without `manually_asserted` always resolves, so an admissible change on it never fails. */
  lemma SafeChangeTakesEffect(c: Change, root: Ty, s: Value)
    requires Admissible(c, root) && HasType(s, root) && AssertionFree(c.path)
    ensures Follow(c.path, s).Some? && FollowMut(c.path, s).Some?
    ensures Update(c.path, s, t => Effect(c, t)).Some?
  {
    SafePathResolves(c.path, root, s);
    FollowMutIffWrite(c.path, s, Effect(c, FollowMut(c.path, s).value));
  }

  /**
   * After a change whose path resolves and looks up no item by id, the
   * path reaches the effect of the change on its old target.
   */
  lemma ChangeReadsBack(c: Change, root: Ty, s: Value)
    requires Admissible(c, root) && HasType(s, root) && ConversionsBehave(c.path) && LookupFree(c.path)
    requires Follow(c.path, s).Some?
    ensures Follow(c.path, ApplyChange(c, s)) == Some(Effect(c, Follow(c.path, s).value))
  {
    var t := Follow(c.path, s).value;
    BehavingIsTyped(c.path);
    FollowTyped(c.path, root, s);
    FollowMutIsFollow(c.path, root, s);
    EffectTyped(c, root, t);
    ApplyChangeWrites(c, s);
    PathLaws.WriteThenFollow(c.path, root, s, Effect(c, t));
  }

  /** Running `a` then `b` is running `a` and then running `b` on the result. */
  lemma {:induction false} ApplyAllAppend(a: seq<Change>, b: seq<Change>, s: Value)
    ensures ApplyAll(a + b, s) == ApplyAll(b, ApplyAll(a, s))
  {
    if |a| == 0 {
      assert a + b == b;
    } else {
      assert (a + b)[1..] == a[1..] + b;
      ApplyAllAppend(a[1..], b, ApplyChange(a[0], s));
    }
  }

  /** Running admissible changes on a well-typed state leaves a well-typed state. */
  lemma {:induction false} ApplyAllTyped(cs: seq<Change>, root: Ty, s: Value)
    requires HasType(s, root) && forall c <- cs :: Admissible(c, root)
    ensures HasType(ApplyAll(cs, s), root)
  {
    if |cs| > 0 {
      ApplyChangeTyped(cs[0], root, s);
      ApplyAllTyped(cs[1..], root, ApplyChange(cs[0], s));
    }
  }

  /**
   * FIFO, spelled out for two changes: the instance of `ApplyAllAppend` for
   * the one-change queues `[a]` and `[b]`.
   */
  lemma ApplyTwoInOrder(a: Change, b: Change, s: Value)
    ensures ApplyAll([a, b], s) == ApplyChange(b, ApplyChange(a, s))
  {
    assert [a, b] == [a] + [b];
    ApplyAllAppend([a], [b], s);
    assert [a][1..] == [] && [b][1..] == [];
    assert ApplyAll([a], s) == ApplyAll([], ApplyChange(a, s));
    assert ApplyAll([b], ApplyChange(a, s)) == ApplyAll([], ApplyChange(b, ApplyChange(a, s)));
  }

  // ---------------------------------------------------------------------
  // Retain
  // ---------------------------------------------------------------------

  /** `retain` keeps order: on a concatenation it is the concatenation of the parts' results. */
  lemma {:induction false} RetainAppend(a: seq<Value>, b: seq<Value>, getId: Value -> Key, id: Key)
    ensures Retain(a + b, getId, id) == Retain(a, getId, id) + Retain(b, getId, id)
  {
    if |a| == 0 {
      assert a + b == b;
    } else {
      var head := if getId(a[0]) != id then [a[0]] else [];
      assert (a + b)[0] == a[0];
      assert (a + b)[1..] == a[1..] + b;
      assert Retain(a + b, getId, id) == head + Retain(a[1..] + b, getId, id);
      assert Retain(a, getId, id) == head + Retain(a[1..], getId, id);
      RetainAppend(a[1..], b, getId, id);
    }
  }

  /** No kept item has id `id`, and every item without it is kept. */
  lemma RetainKeepsExactlyOthers(items: seq<Value>, getId: Value -> Key, id: Key)
    ensures forall x <- Retain(items, getId, id) :: getId(x) != id && x in items
    ensures forall x <- items :: getId(x) != id ==> x in Retain(items, getId, id)
  {
    var r := Retain(items, getId, id);
    RetainCounts(items, getId, id);
    forall x <- r
      ensures getId(x) != id && x in items
    {
      assert multiset(r)[x] > 0;
    }
    forall x <- items | getId(x) != id
      ensures x in r
    {
      assert multiset(items)[x] > 0;
    }
  }
}
