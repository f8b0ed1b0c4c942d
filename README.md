# rust_state, modelled in Dafny

`rust_state` keeps an application's whole state in one root value. Code
reaches into that value through *paths*. A path is a small `Copy` value
that describes where a piece of data lives: the root, a struct field, a
`Vec` position or item id, a `HashMap` key, an array index, the inside of
an `Option` or a `Box`, an `AsRef` view, a downcast of a `Box<dyn Any>`,
or a path the caller promises will resolve. Every path can `follow` the
state (read), `follow_mut` it (get a mutable reference) and `select` from
it. The type of every path carries a `SAFE` flag. The flag is a promise
that navigation cannot fail, checked by the compiler except under
`manually_asserted`. The `Context` owns the root state and a queue
of pending changes. Its write methods only queue a change. `apply` runs
the queue in order, and a change whose path does not resolve leaves the
state alone.

The model has these parts:

- `StateTree` (`state.dfy`) holds the state tree `Value` and its static
  types `Ty`. `HasType` states the guarantee the Rust compiler gives: a
  value has the shape of its type. Struct and integer types carry their
  name, so two types with the same shape stay different types.
- `Paths` (`path.dfy`) holds the `Path` datatype with one constructor per
  combinator, `Follow` (`follow`) and `FollowMut` (the target `follow_mut`
  hands out). `Write(p, s, v)` is `follow_mut` followed by
  `*reference = v` and yields the new root state. `Update` writes a
  function of the target `follow_mut` hands out. The module also has `SelectPath`,
  the computed `Safe` flag and `TypeOf`, which stands for the Rust type
  checker. Composition, selectors, and the general agreement, typing and
  `SAFE` lemmas are here too.
- `PathLaws` (`laws.dfy`) proves the lens laws. Together they say that a
  write changes its target and nothing else.
- There is one module per combinator source file: `DerivedPaths`,
  `VecPaths`, `MapPaths`, `ArrayPaths`, `OptionPaths`, `BoxedPaths`,
  `AsRefPaths`, `DowncastPaths` and `ManualPaths`. Each one states:
  - what its `follow` reaches and when it fails;
  - what its `follow_mut` reaches, from where the inner path's
    `follow_mut` arrived, and what a write through it changes;
  - its `SAFE`;
  - that `select` equals `follow`;
  - the example from its documentation.
- `Contexts` (`context.dfy`) holds the `Context` class. Its fields are
  `state` and `queue`. The enqueueing methods append to `queue`. `Apply`
  is a loop that drains `queue` front to back. It is proved equal to the
  fold `ApplyAll`.
- `ContextExamples` (`context_examples.dfy`) replays the examples from
  the documentation of `Context`'s methods through the class, and proves
  what each one asserts.
- `TestItems` (`test_items.dfy`) defines, once, the item structs, the
  integer type and the closure those examples use.

A `path_as_ref()` conversion is modelled by three functions: `view` is
what `as_ref` returns, `mutView` is what the reference `as_mut` returns
points at, and `update` is a write through that reference. `Follow` goes
through `view`; `FollowMut`, `Write` and `Update` go through `mutView`
and `update`, as `follow` and `follow_mut` do. Rust enforces only their
types (`ConversionsTyped`), and the typing lemmas, `SAFE` and every
`Context` method ask for nothing more. Rust does not make `as_ref` and
`as_mut` point at the same place. With the pair in `AsRefPaths.SplitAsRef`,
which reads `a` and writes `b`, a context accepts a change, and the
change lands in `b` (`SplitAsRefChange`, `SplitAsRefUpdate`). Below such
a pair, `follow` and `follow_mut` can even disagree on whether a path
resolves (`SplitIndexReadsOnly`). So the lemmas that equate `follow` with
`follow_mut` (`FollowMutIsFollow`, `FollowIffWrite`, `FollowIffUpdate`)
ask that every `as_mut` point at what its `as_ref` shows
(`ConversionsAgree`). The lens laws also need the laws that tie the two
together (`ConversionsBehave`).

## Model

| member | source | states |
|---|---|---|
| Paths.Follow | src/path.rs:82-83 | `follow`: the definition is the model, one case per combinator (`Narrow`); its properties are stated by `FollowIffWrite`, `FollowTyped`, `SafePathResolves`, `ComposeFollows` and the per-combinator `…Follows` lemmas |
| Paths.FollowMut | src/path.rs:85-86 | the target `follow_mut` hands out: one case per combinator (`NarrowMut`), through `as_mut` at `path_as_ref()` as in src/as_ref.rs:82-83; the definition is the model; its properties are stated by `FollowMutIffWrite`, `FollowMutIsFollow`, `FollowTyped`, `ComposeFollowsMut` and the per-combinator `…FollowMut` lemmas |
| Paths.Write | src/path.rs:85-86 | `follow_mut` followed by `*reference = v`, as the new root state: the definition is the model (`Replace` per combinator, at the target `FollowMut` reaches); its properties are stated by `FollowMutIffWrite`, `FollowIffWrite`, `WriteTyped`, the `PathLaws` lemmas and the per-combinator `…FollowMut` lemmas |
| Paths.Update | src/context.rs:125-128 | `match path.follow_mut(state) { Some(reference) => closure(reference) … }`, the closure applied to the target `follow_mut` hands out: the definition is the model; `FollowIffUpdate`, `UpdateTyped` and `AsRefPaths.SplitAsRefUpdate` state its properties |
| Paths.SelectPath | src/manual.rs:65-67 | `select` of a path: `follow`, except that `manually_asserted` delegates to the inner `select`; `SelectAgreesWithFollow` proves it equal to `follow` |
| Paths.Select | src/path.rs:43-52 | `Selector::select` for a path and for a plain value: the definition is the model; `ValueSelectsItself` and `PathIsSelector` state its properties |
| Paths.Safe | src/path.rs:81 | the `SAFE` const each combinator's `Path` impl declares: the definition is the model; `SafePathResolves`, `ComposeSafe` and the per-combinator `…Unsafe`/`…KeepsSafe` lemmas state its properties |
| Paths.SelectorSafe | src/path.rs:43-48 | a selector's `SAFE`, `true` by default for a plain value: the definition is the model; `ValueSelectsItself` and `PathIsSelector` state its properties |
| Paths.TypeOf | src/path.rs:81 | the `To` type Rust infers for a path, `None` where Rust rejects the path: the definition is the model; `FollowTyped`, `WriteTyped` and `ManualPaths.AssertedIsSafe` state its properties |
| Paths.Compose | src/path.rs:81 | chaining combinators onto a path: the definition is the model; `ComposeFollows`, `ComposeFollowsMut`, `ComposeWrites`, `ComposeAssociative`, `ComposeRootIdentity`, `ComposeNavigatesAlike` and `ComposeSafe` state its properties |
| Paths.FindFirst | src/vec.rs:113-115 | `iter().find(\|e\| e.get_id() == id)`: the result is a matching position with no match before it, and `None` means no item matches |
| Paths.FollowMutIffWrite | src/path.rs:85-86 | a write succeeds exactly when `follow_mut` returns `Some`, for every path and state |
| Paths.FollowMutIsFollow | src/as_ref.rs:78-84 | on a well-typed state, where every `as_mut` on the path points at what its `as_ref` shows, `follow_mut` hands out the very target `follow` reads |
| Paths.FollowIffWrite | src/path.rs:82-86 | on a well-typed state, for a path whose `as_mut`s point at what its `as_ref`s show, `follow` returns `Some` exactly when `follow_mut` does |
| Paths.FollowIffUpdate | src/path.rs:82-86 | on such a path an update succeeds exactly when `follow` does, and applies the closure to what `follow` reads |
| Paths.SelectAgreesWithFollow | src/path.rs:60-61 | `select` of any path, asserted ones included, equals its `follow` |
| Paths.FollowTyped | src/path.rs:81-86 | `follow` and `follow_mut` on a well-typed path and state reach a value of the path's target type |
| Paths.WriteTyped | src/path.rs:85-86 | writing a value of the target type through `follow_mut` leaves a state of the root type |
| Paths.UpdateTyped | src/path.rs:85-86 | an update whose function keeps the target type leaves a state of the root type |
| Paths.SafePathResolves | src/path.rs:81 | `SAFE` keeps its promise: a safe, well-typed path without `manually_asserted` always resolves, with `follow` and with `follow_mut` |
| Paths.WriteCurrentIsIdentity | src/path.rs:85-86 | writing back what a path reads gives back the same state |
| Paths.ComposeFollows | src/path.rs:81-83 | following a composed path follows the first part, then the second from where the first arrived |
| Paths.ComposeFollowsMut | src/path.rs:85-86 | `follow_mut` of a composed path is the first part's `follow_mut`, then the second part's from where the first arrived |
| Paths.ComposeWrites | src/path.rs:85-86 | writing through a composed path writes through the second part inside what the first part's `follow_mut` reaches, then writes that back through the first part |
| Paths.ComposeAssociative | src/path.rs:81-86 | composition is associative: `(a, b)` continued by `c` and `a` continued by `(b, c)` are the same path |
| Paths.ComposeRootIdentity | src/path.rs:81-86 | the root path is the identity of composition on both sides |
| Paths.ComposeNavigatesAlike | src/path.rs:81-86 | both groupings of a composition, and a path composed after the root path, agree on `follow`, `follow_mut`, writes, `SAFE` and the target type |
| Paths.ComposeSafe | src/path.rs:81 | composing two safe paths gives a safe one; an unsafe second part gives an unsafe result; without `manually_asserted` the result is safe exactly when both parts are |
| Paths.ValueSelectsItself | src/path.rs:48-52 | a value used as a selector selects itself whatever the state, and the selector is safe (`SAFE` defaults to `true`) |
| Paths.PathIsSelector | src/path.rs:43-45 | every path is a selector with the same `SAFE`, and its `select` is its `follow` |
| PathLaws.WriteThenFollow | src/path.rs:85-86 | after a write of a value of the target type through a path that resolves, the path reads that value |
| PathLaws.WriteTwice | src/path.rs:85-86 | a second write through the same path overrides the first one completely |
| PathLaws.WriteLeavesApart | src/path.rs:85-86 | a write below one field, index or key leaves everything below a sibling field, index or key unchanged |
| DerivedPaths.RootFollows | macros/src/lib.rs:59-73 | the root path's `follow` and `follow_mut` reach the state itself, a write through it replaces the state, and it is safe |
| DerivedPaths.FieldFollows | macros/src/lib.rs:154-168 | a field accessor on a well-typed state resolves exactly when its inner path does, and reaches that field; `select` is `follow` |
| DerivedPaths.FieldFollowMut | macros/src/lib.rs:159-161 | a field accessor's `follow_mut` resolves exactly when the inner `follow_mut` reaches a struct with that field, and hands out that field; a write replaces that field and keeps the others |
| DerivedPaths.FieldKeepsSafe | macros/src/lib.rs:154 | a field accessor keeps its inner path's `SAFE` |
| VecPaths.IndexFollows | src/vec.rs:176-189 | `index(i)` resolves exactly when the inner path reaches a `Vec` and `i` is in bounds, and reaches element `i`; `select` is `follow` |
| VecPaths.IndexFollowMut | src/vec.rs:191-193 | `index(i)`'s `follow_mut` makes the bounds check on the `Vec` the inner `follow_mut` reaches and hands out element `i`; a write succeeds exactly then, replaces element `i` and keeps the length |
| VecPaths.LookupFollows | src/vec.rs:102-115 | `lookup(id)` resolves exactly when the inner `Vec` holds an item with that id, and reaches the first such item; `select` is `follow` |
| VecPaths.LookupIsFirstMatchIndex | src/vec.rs:113-119 | `lookup(id)`'s `follow` and `follow_mut` are each `index` at the first match in the `Vec` their inner path reaches, and a write through `lookup(id)` is a write at that index; with no match they fail |
| VecPaths.LookupFollowMut | src/vec.rs:117-119 | a write through `lookup(id)` of an item that keeps the id succeeds, and the lookup then reads that item |
| VecPaths.VecPathsUnsafe | src/vec.rs:107-128 | both `Vec` combinators are unsafe whatever their inner path, so `manually_asserted` accepts them |
| VecPaths.Example | src/vec.rs:36-46 | with items `[{id: 10}]`, `lookup(10)` and `index(0)` both select `{id: 10}` |
| VecPaths.RenamedItemIsLost | src/vec.rs:56-58 | writing an item with a new id through `lookup(10)` succeeds, but the lookup no longer resolves afterwards |
| MapPaths.LookupFollows | src/map.rs:72-85 | map `lookup(key)` resolves exactly when the inner map holds `key`, and reaches its entry; `select` is `follow` |
| MapPaths.LookupFollowMut | src/map.rs:87-89 | map `lookup(key)`'s `follow_mut` resolves exactly when the map the inner `follow_mut` reaches holds `key`, and hands out its entry; a write succeeds exactly then, replaces the entry and keeps the key set |
| MapPaths.MapLookupUnsafe | src/map.rs:77-98 | a map lookup is unsafe whatever its inner path |
| MapPaths.Example | src/map.rs:21-27 | `{10: TestItem}` with `lookup(10)` selects `TestItem` |
| ArrayPaths.IndexFollows | src/array.rs:61-74 | `array_index(i)` resolves exactly when the inner path reaches an array and `i` is in bounds, and reaches element `i`; `select` is `follow` |
| ArrayPaths.IndexBoundIsN | src/array.rs:66-74 | in a well-typed state the bound is `N`: once the inner path resolves, `array_index(i)` resolves exactly when `i < N` |
| ArrayPaths.IndexFollowMut | src/array.rs:76-78 | `array_index(i)`'s `follow_mut` makes the bounds check on the array the inner `follow_mut` reaches and hands out element `i`; a write succeeds exactly then, replaces element `i` and keeps the length |
| ArrayPaths.ArrayIndexUnsafe | src/array.rs:66-87 | an array index is unsafe even when the array path is safe |
| ArrayPaths.Example | src/array.rs:14-20 | `[7, 8, 9]` with `array_index(1)` selects `8`; index 3 selects nothing |
| OptionPaths.UnwrappedFollows | src/option.rs:65-78 | `unwrapped()` resolves exactly when the inner path reaches a `Some`, and reaches its content; `select` is `follow` |
| OptionPaths.UnwrappedFollowMut | src/option.rs:80-82 | `unwrapped()`'s `follow_mut` resolves exactly when the inner `follow_mut` reaches a `Some`, and hands out its content; a write succeeds exactly then, replaces the content and never turns a `None` into a `Some` |
| OptionPaths.UnwrappedUnsafe | src/option.rs:70-100 | `unwrapped()` is unsafe whatever its inner path |
| OptionPaths.Example | src/option.rs:22-28 | `Some({value: 20})` unwraps to `{value: 20}`, and `None` unwraps to nothing |
| BoxedPaths.UnboxedFollows | src/boxed.rs:67-80 | on a well-typed state `unboxed()` resolves exactly when its inner path does, and reaches the pointee; `select` is `follow` |
| BoxedPaths.UnboxedFollowMut | src/boxed.rs:82-84 | `unboxed()`'s `follow_mut` hands out the pointee of the box the inner `follow_mut` reaches; a write succeeds exactly then and boxes the value written |
| BoxedPaths.UnboxedKeepsSafe | src/boxed.rs:72-93 | `unboxed()` keeps its inner path's `SAFE` |
| BoxedPaths.Example | src/boxed.rs:20-26 | a boxed `{value: 42}` read through the safe `inner().unboxed()` is `{value: 42}` |
| AsRefPaths.AsRefFollows | src/as_ref.rs:66-80 | `path_as_ref()` resolves exactly when its inner path does, and reaches the `as_ref` view; `select` is `follow` |
| AsRefPaths.AsRefFollowMut | src/as_ref.rs:82-84 | `path_as_ref()`'s `follow_mut` resolves exactly when the inner `follow_mut` does and hands out the `as_mut` target of what that reaches; a write goes through `as_mut` |
| AsRefPaths.AsRefKeepsSafe | src/as_ref.rs:71-94 | `path_as_ref()` keeps its inner path's `SAFE` |
| AsRefPaths.BoxAsRefBehaves | src/as_ref.rs:75 | the `AsRef`/`AsMut` conversion of `Box<T>` points both halves at the pointee and keeps the conversion laws |
| AsRefPaths.SplitAsRefTyped | src/as_ref.rs:71-76 | an `as_ref` that returns `&self.a` next to an `as_mut` that returns `&mut self.b` has the types Rust checks |
| AsRefPaths.SplitAsRefBreaksLaws | src/as_ref.rs:78-84 | that pair's halves point at different fields, and it breaks the laws: after a write through `as_mut` the `as_ref` view does not show the value written |
| AsRefPaths.SplitAsRefWrite | src/as_ref.rs:78-84 | `follow` reads `a`, `follow_mut` hands out `b`, a write goes to `b`, and after the write `follow` still reads the old `a` |
| AsRefPaths.SplitAsRefChange | src/context.rs:90-98 | a context accepts `update_value` through that pair; after `apply` the write has landed in `b` and the path still reads `a` |
| AsRefPaths.SplitAsRefUpdate | src/context.rs:121-130 | a context accepts `update_value_with(\|value\| *value *= 2)` through that pair, and `apply` doubles `b`, the value `as_mut` hands to the closure, leaving `a` |
| AsRefPaths.SplitIndexReadsOnly | src/as_ref.rs:78-84 | below a pair of `Vec`s split the same way, `index(0)` on `{a: [1], b: []}` reads `a[0]`, but its `follow_mut` looks in the empty `b` and fails, so a write fails |
| AsRefPaths.Example | src/as_ref.rs:22-28 | a boxed `{value: 42}` read through the safe `inner().path_as_ref()` is `{value: 42}` |
| DowncastPaths.DowncastFollows | src/downcast.rs:65-78 | `downcast::<To>()` resolves exactly when the inner path reaches a dynamic value of type `To`, and reaches its payload; `select` is `follow` |
| DowncastPaths.DowncastTyped | src/downcast.rs:76-78 | a well-typed downcast has target type `To`, and what it reaches in a well-typed state has type `To` |
| DowncastPaths.DowncastFollowMut | src/downcast.rs:80-82 | `downcast::<To>()`'s `follow_mut` makes the same type check on what the inner `follow_mut` reaches and hands out the payload; a write succeeds exactly then, replaces the payload and keeps the dynamic type |
| DowncastPaths.DowncastUnsafe | src/downcast.rs:70-90 | a downcast is unsafe whatever its inner path |
| DowncastPaths.Example | src/downcast.rs:23-29 | a dynamic `Inner{99}` downcast to `Inner` selects `Inner{99}`; a downcast to another type selects nothing |
| DowncastPaths.DowncastIsNominal | src/downcast.rs:76-78 | `Inner` and `TestItem` have the same fields, yet a boxed `Inner{99}` does not downcast to `TestItem`: types are told apart by name, as `TypeId`s are |
| ManualPaths.AssertedIsSafe | src/manual.rs:85-96 | `manually_asserted()` applies only to an unsafe path, and the result is safe with the same target type |
| ManualPaths.AssertedDelegates | src/manual.rs:65-82 | `follow`, `follow_mut` and `select` of an asserted path are those of the wrapped path, so it resolves exactly when that path does |
| ManualPaths.Example | src/manual.rs:28-36 | with item 10 present, `lookup(10).manually_asserted()` is safe and selects the item with id 10 |
| ManualPaths.BrokenPromise | src/context.rs:327-339 | the same safe, well-typed asserted path selects nothing in a well-typed state without item 10, which is when `get` panics |
| Contexts.Retain | src/context.rs:213 | `retain(\|item\| item.get_id() != id)`: the definition is the model; `RetainCounts`, `RetainAppend` and `RetainKeepsExactlyOthers` state its properties |
| Contexts.RetainCounts | src/context.rs:213 | `retain(\|item\| item.get_id() != id)` keeps each item without the id as often as it occurs and drops every item with it; with no match it changes nothing |
| Contexts.RetainAppend | src/context.rs:213 | `retain` keeps order: on a concatenation it concatenates the results of the parts |
| Contexts.RetainKeepsExactlyOthers | src/context.rs:212-215 | every kept item lacks the id and comes from the input, and every input item without the id is kept |
| Contexts.Effect | src/context.rs:95-295 | what each queued closure does to its target: set, apply the closure, push at the end, retain, insert (overwriting) or remove a key, with all other entries kept |
| Contexts.ApplyChange | src/context.rs:95-98 | one queued closure on the state, with the `None` branch a no-op: the definition is the model; `ApplyChangeWrites`, `ChangeReadsBack` and `ApplyChangeTyped` state its properties |
| Contexts.ApplyAll | src/context.rs:321-325 | `drain(..).for_each(\|apply\| apply(&mut self.state))` as a fold: the definition is the model; `ApplyAllAppend`, `ApplyAllTyped` and `Context.Apply` state its properties |
| Contexts.ApplyChangeWrites | src/context.rs:95-98 | a change whose path's `follow_mut` resolves writes, through that path, its effect on the target `follow_mut` hands out; otherwise the state is unchanged |
| Contexts.ChangeReadsBack | src/context.rs:95-98 | after a change on a resolving path without a lookup by id, the path reads the change's effect on the old target |
| Contexts.SafeChangeTakesEffect | src/context.rs:90-93 | a change on a safe path without `manually_asserted` resolves with `follow` and `follow_mut` and never takes the failure branch |
| Contexts.EffectTyped | src/context.rs:164-167 | every admissible change's effect keeps the target's type |
| Contexts.ApplyChangeTyped | src/context.rs:90-99 | running an admissible change keeps the state's type |
| Contexts.ApplyAllAppend | src/context.rs:321-325 | running two queues back to back is running their concatenation |
| Contexts.ApplyAllTyped | src/context.rs:321-325 | running admissible changes keeps the state's type |
| Contexts.ApplyTwoInOrder | src/context.rs:321-325 | two queued changes run in the order they were queued; an instance of `ApplyAllAppend` |
| Contexts.SafeSelectorSelects | src/context.rs:335-339 | `get` does not panic on a safe value selector or a well-typed path without `manually_asserted`; a value gets itself |
| Contexts.Context.constructor | src/context.rs:55-60 | `new` gives a context with the given state and an empty queue |
| Contexts.Context.PushChange | src/context.rs:64-68 | `push_change` appends to the queue and leaves the state unchanged |
| Contexts.Context.UpdateValue | src/context.rs:90-99 | `update_value` queues a set and leaves the state unchanged |
| Contexts.Context.UpdateValueWith | src/context.rs:121-130 | `update_value_with` queues the closure and leaves the state unchanged |
| Contexts.Context.VecPushItem | src/context.rs:164-173 | `vec_push` queues a push and leaves the state unchanged |
| Contexts.Context.VecRemoveItem | src/context.rs:207-216 | `vec_remove` queues a removal by id and leaves the state unchanged |
| Contexts.Context.MapInsertItem | src/context.rs:245-256 | `map_insert` queues an insert and leaves the state unchanged |
| Contexts.Context.MapRemoveItem | src/context.rs:285-296 | `map_remove` queues a key removal and leaves the state unchanged |
| Contexts.Context.Apply | src/context.rs:321-325 | `apply` runs the queue front to back, each change on the state the previous one left, and empties the queue |
| Contexts.Context.Get | src/context.rs:335-340 | `get` takes a safe selector and returns what it selects; it may not be called when that is nothing |
| Contexts.Context.TryGet | src/context.rs:350-355 | `try_get` takes an unsafe selector and returns its `select` unchanged |
| Contexts.Context.TryGetAny | src/context.rs:364-369 | `try_get_any` returns `follow` unchanged, which is also the path's `select` |
| ContextExamples.UpdateValueExample | src/context.rs:82-88 | `update_value(value_path, 10)` on `{value: 5}`, then `apply`: `get` reads 10 |
| ContextExamples.UpdateValueWithExample | src/context.rs:113-119 | `update_value_with(value_path, \|value\| *value *= 2)` on `{value: 5}`, then `apply`: `get` reads 10 |
| ContextExamples.VecPushExample | src/context.rs:156-162 | pushing onto an empty `Vec`, then `apply`, gives length 1 |
| ContextExamples.VecRemoveExample | src/context.rs:199-205 | removing id 10 from `[{id: 10}]`, then `apply`, gives length 0 |
| ContextExamples.MapInsertExample | src/context.rs:237-243 | inserting key 10 into an empty map, then `apply`, gives length 1 |
| ContextExamples.MapRemoveExample | src/context.rs:277-283 | removing key 10 from `{10: TestItem}`, then `apply`, gives length 0 |
| ContextExamples.ApplyExample | src/context.rs:310-319 | after `update_value` `get` still reads "Before"; after `apply` it reads "After" |

## Left out

- `println!("Failed to update state")` is I/O. A change whose path does not resolve is a no-op on the state, and nothing else is recorded.
- `UnsafeCell` and the raw pointer in `push_change` are a Rust aliasing device. The queue is an ordinary field of the class.
- The compile-time checks are not run, because Rust does them statically. They become the `TypeOf`, `Admissible` and `Valid` preconditions:
  - paths must type-check;
  - `as_ref` and `as_mut` return the types their signatures give (`ConversionsTyped`);
  - the enqueueing methods require `SAFE = true`;
  - `get` needs a safe selector and `try_get` an unsafe one.
- Contexts.Context.Get: `get` unwraps what the selector selects, so it panics when a selector promises `SAFE` under `manually_asserted` but selects nothing (`src/context.rs`, lines 335-340). The model makes "selects something" a precondition of `Get` instead of modelling the panic; `ManualPaths.BrokenPromise` shows a state where it fails, and `Contexts.SafeSelectorSelects` shows it cannot fail without `manually_asserted`.
- `Copy`, `Clone`, lifetimes and `PhantomData` are not modelled. A path is an immutable Dafny value.
- `HashMap` hashing and the `Hash`/`Eq` machinery are replaced by a Dafny `map` keyed by `int`. `u32` ids and keys are unbounded integers.
- `TypeId` and `downcast_ref`/`downcast_mut` are replaced by equality of the type recorded in a `Dynamic` value. A struct or integer type is named by its bare name, so two structs of the same name in different Rust modules, which have different `TypeId`s, are not told apart.
- In-place mutation through `&mut` references is not modelled. A write rebuilds the root value, so the in-place updates of a nested `Vec` or `HashMap` (`push`, `retain`, `insert`, `remove`) are value updates inside `Write`. Aliasing between references is not modelled.
- The derive macro's token generation (`macros/src/lib.rs`) is not modelled. Only the paths it emits are: `Root` and `Field`.
- `src/lib.rs` holds module declarations and re-exports only. It is not part of this model.
- User closures, `get_id` and `as_ref`/`as_mut` are arbitrary pure functions in the model. Side effects of user closures are not modelled.
- Paths.WriteCurrentIsIdentity: stated only for paths whose `path_as_ref()` conversions keep the laws that tie `as_mut` to `as_ref` (`ConversionsBehave`). Rust does not enforce those laws, and a pair that breaks them makes the lemma false (`AsRefPaths.SplitAsRefWrite`). They are proved for the `Box<T>` conversion (`AsRefPaths.BoxAsRefBehaves`).
- Paths.FollowIffWrite: stated only for paths whose `as_mut`s point at what their `as_ref`s show (`ConversionsAgree`). Rust does not enforce this, and where it fails `follow` and `follow_mut` can disagree on whether a path resolves (`AsRefPaths.SplitIndexReadsOnly`). `FollowMutIffWrite` holds for every path.
- Paths.FollowIffUpdate: stated only for such paths, for the same reason; on the others an update applies the closure to the target `follow_mut` hands out (`AsRefPaths.SplitAsRefUpdate`).
- PathLaws.WriteThenFollow: stated only for paths without a `Vec` lookup by id. A lookup finds its item again only if the write keeps the item's id (`VecPaths.LookupFollowMut`, `VecPaths.RenamedItemIsLost`). It also needs the `as_mut`/`as_ref` laws, for the reason given for `Paths.WriteCurrentIsIdentity`.
- PathLaws.WriteTwice: stated only for paths without a `Vec` lookup by id, and only under the `as_mut`/`as_ref` laws, for the same reasons.
- PathLaws.WriteLeavesApart: stated only when the written path has no `Vec` lookup by id and keeps the `as_mut`/`as_ref` laws. A write inside a looked-up item can change that item's id, which moves the lookup. Only siblings under the same parent path are covered, for example two fields, two indices or two keys. Two lookups by id are not compared.
- VecPaths.LookupFollowMut: stated only for a single lookup whose inner path has no `Vec` lookup by id and keeps the `as_mut`/`as_ref` laws. Nested lookups are not covered, for the same reason.
- Contexts.ChangeReadsBack: stated only for paths without a `Vec` lookup by id and under the `as_mut`/`as_ref` laws, for the same reasons.
- ContextExamples.UpdateValueWithExample: `*value *= 2` on a `u32` panics or wraps on overflow. The model doubles an unbounded integer, and the example's 5 does not overflow.
- The `State: StateMarker` bound on `Context` (`src/context.rs`, lines 12 and 27), which the documentation examples meet with `#[state_root]`, is not modelled. `Contexts.Context.constructor` only asks that the state has the root type.
- Paths.ComposeSafe: composition is not a method of the library; chaining combinators onto a path is composition. One might expect a composed path to be safe exactly when both parts are. The code differs: when the second part ends in `manually_asserted`, the result is safe even if the first part is not. The lemma follows the code.
