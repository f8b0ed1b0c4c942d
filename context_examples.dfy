/**
 * The examples on `Context`'s methods, replayed through the class and
 * proved: each builds a context, queues changes, applies them and reads the
 * result back.
 */
module ContextExamples {
  import opened Wrappers
  import opened StateTree
  import opened TestItems
  import opened Paths
  import opened Contexts

  /** `MyState { value: u32 }`. */
  const ValueStateTy: Ty := RecordTy("MyState", map["value" := U32])

  /** `MyState::path().value()`. */
  const ValuePath: Path := Field(Root, "value")

  /** `MyState { items: Vec<TestItem> }`. */
  const VecStateTy: Ty := RecordTy("MyState", map["items" := VecTy(ItemWithIdTy)])

  /** `MyState { items: HashMap<u32, TestItem> }` with the unit struct `TestItem`. */
  const MapStateTy: Ty := RecordTy("MyState", map["items" := MapTy(UnitItemTy)])

  /** `MyState::path().items()`. */
  const ItemsPath: Path := Field(Root, "items")

  /** `State::path().<name>()` on a struct: its type, its flags, and where it reads and writes. */
  lemma FieldPath(name: string, ty: Ty, s: Value, v: Value)
    requires ty.RecordTy? && name in ty.fieldTys
    ensures TypeOf(Field(Root, name), ty) == Some(ty.fieldTys[name])
    ensures Safe(Field(Root, name)) && ConversionsTyped(Field(Root, name))
    ensures s.Record? && name in s.fields ==>
      Follow(Field(Root, name), s) == Some(s.fields[name]) &&
      FollowMut(Field(Root, name), s) == Some(s.fields[name]) &&
      Write(Field(Root, name), s, v) == Some(Record(s.fields[name := v]))
  {
    FollowStep(Field(Root, name), s);
    FollowMutStep(Field(Root, name), s);
    WriteUnfold(Field(Root, name), s, v);
  }

  /**
   * A queue holding one change on a field runs that change's effect on the
   * field, and the field path then reads that effect.
   */
  lemma RunsOnField(c: Change, name: string, s: Value)
    requires c.path == Field(Root, name) && s.Record? && name in s.fields
    ensures ApplyAll([] + [c], s) == Record(s.fields[name := Effect(c, s.fields[name])])
    ensures SelectPath(c.path, ApplyAll([] + [c], s)) == Some(Effect(c, s.fields[name]))
  {
    var t := s.fields[name];
    var s' := Record(s.fields[name := Effect(c, t)]);
    FollowStep(c.path, s);
    FollowMutStep(c.path, s);
    WriteUnfold(c.path, s, Effect(c, t));
    ApplyChangeWrites(c, s);
    assert ApplyChange(c, s) == s';
    assert [] + [c] == [c] && [c][1..] == [];
    assert ApplyAll([c], s) == ApplyAll([], s');
    FollowStep(c.path, s');
  }

  /** `update_value(value_path, 10)` on `MyState { value: 5 }`, then `apply`: `get` reads 10. */
  method UpdateValueExample() returns (r: Value)
    ensures r == Scalar(10)
  {
    var s0 := Record(map["value" := Scalar(5)]);
    var context := new Context(s0, ValueStateTy);
    FieldPath("value", ValueStateTy, s0, Scalar(10));
    context.UpdateValue(ValuePath, Scalar(10));
    context.Apply();
    RunsOnField(SetValue(ValuePath, Scalar(10)), "value", s0);
    r := context.Get(PathSelector(ValuePath));
  }

  /** `update_value_with(value_path, |value| *value *= 2)` on `MyState { value: 5 }`, then `apply`: `get` reads 10. */
  method UpdateValueWithExample() returns (r: Value)
    ensures r == Scalar(10)
  {
    var s0 := Record(map["value" := Scalar(5)]);
    var context := new Context(s0, ValueStateTy);
    FieldPath("value", ValueStateTy, s0, Scalar(10));
    context.UpdateValueWith(ValuePath, Double);
    context.Apply();
    RunsOnField(Transform(ValuePath, Double), "value", s0);
    r := context.Get(PathSelector(ValuePath));
  }

  /** `vec_push(items_path, TestItem { id: 10 })` on an empty `Vec`, then `apply`: the length is 1. */
  method VecPushExample() returns (len: nat)
    ensures len == 1
  {
    var s0 := Record(map["items" := Vec([])]);
    var context := new Context(s0, VecStateTy);
    FieldPath("items", VecStateTy, s0, Vec([]));
    assert HasType(ItemWithId(10), ItemWithIdTy);
    context.VecPushItem(ItemsPath, ItemWithId(10));
    context.Apply();
    RunsOnField(VecPush(ItemsPath, ItemWithId(10)), "items", s0);
    var items := context.Get(PathSelector(ItemsPath));
    len := |items.items|;
  }

  /** `vec_remove(items_path, 10)` on `vec![TestItem { id: 10 }]`, then `apply`: the length is 0. */
  method VecRemoveExample() returns (len: nat)
    ensures len == 0
  {
    var s0 := Record(map["items" := Vec([ItemWithId(10)])]);
    var context := new Context(s0, VecStateTy);
    FieldPath("items", VecStateTy, s0, Vec([]));
    context.VecRemoveItem(ItemsPath, ItemId, 10);
    context.Apply();
    RunsOnField(VecRemove(ItemsPath, ItemId, 10), "items", s0);
    assert ItemId(ItemWithId(10)) == 10;
    assert Retain([ItemWithId(10)], ItemId, 10) == [];
    var items := context.Get(PathSelector(ItemsPath));
    len := |items.items|;
  }

  /** `map_insert(items_path, 10, TestItem)` on an empty map, then `apply`: the length is 1. */
  method MapInsertExample() returns (len: nat)
    ensures len == 1
  {
    var s0 := Record(map["items" := Map(map[])]);
    var context := new Context(s0, MapStateTy);
    FieldPath("items", MapStateTy, s0, Map(map[]));
    context.MapInsertItem(ItemsPath, 10, UnitItem);
    context.Apply();
    RunsOnField(MapInsert(ItemsPath, 10, UnitItem), "items", s0);
    var items := context.Get(PathSelector(ItemsPath));
    len := |items.entries|;
  }

  /** `map_remove(items_path, 10)` on `HashMap::from([(10, TestItem)])`, then `apply`: the length is 0. */
  method MapRemoveExample() returns (len: nat)
    ensures len == 0
  {
    var s0 := Record(map["items" := Map(map[10 := UnitItem])]);
    var context := new Context(s0, MapStateTy);
    FieldPath("items", MapStateTy, s0, Map(map[]));
    context.MapRemoveItem(ItemsPath, 10);
    context.Apply();
    RunsOnField(MapRemove(ItemsPath, 10), "items", s0);
    assert map[10 := UnitItem] - {10} == map[];
    var items := context.Get(PathSelector(ItemsPath));
    len := |items.entries|;
  }

  /**
   * `update_value(value_path, "After")` on `MyState { value: "Before" }`:
   * `get` still reads "Before" until `apply`, and "After" afterwards.
   */
  method ApplyExample() returns (before: Value, after: Value)
    ensures before == Text("Before") && after == Text("After")
  {
    var ty := RecordTy("MyState", map["value" := TextTy]);
    var s0 := Record(map["value" := Text("Before")]);
    var context := new Context(s0, ty);
    FieldPath("value", ty, s0, Text("After"));
    context.UpdateValue(ValuePath, Text("After"));
    before := context.Get(PathSelector(ValuePath));
    context.Apply();
    RunsOnField(SetValue(ValuePath, Text("After")), "value", s0);
    after := context.Get(PathSelector(ValuePath));
  }
}
