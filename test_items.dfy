/**
 * The item structs, the integer type and the closure the documentation
 * examples are written with, defined once. Each example module names the
 * shape its Rust example uses: a `TestItem { id }` that implements
 * `VecItem`, a `TestItem { value }`, or the unit struct `TestItem`.
 */
module TestItems {
  import opened StateTree

  /** `u32`, the integer type of the examples; the `Option` example declares its own `usize`. */
  const U32: Ty := ScalarTy("u32")

  /** `TestItem { id }`. */
  function ItemWithId(id: int): Value {
    Record(map["id" := Scalar(id)])
  }

  const ItemWithIdTy: Ty := RecordTy("TestItem", map["id" := U32])

  /** `TestItem::get_id`; values that are not a `TestItem` never occur in a well-typed `Vec<TestItem>`. */
  function ItemId(v: Value): Key {
    if v.Record? && "id" in v.fields && v.fields["id"].Scalar? then v.fields["id"].n else 0
  }

  /** `TestItem { value }`. */
  function ItemWithValue(value: int): Value {
    Record(map["value" := Scalar(value)])
  }

  const ItemWithValueTy: Ty := RecordTy("TestItem", map["value" := U32])

  /** `TestItem`, a unit struct. */
  const UnitItem: Value := Record(map[])

  const UnitItemTy: Ty := RecordTy("TestItem", map[])

  /** `|value| *value *= 2` on a `u32`. */
  function Double(v: Value): Value {
    if v.Scalar? then Scalar(v.n * 2) else v
  }
}
