/**
 * The state tree that paths navigate: the values a root state is built from,
 * and their static types. A Rust program never holds a value of the wrong
 * shape for its type; `HasType` is that guarantee, stated so that lemmas can
 * assume it where the Rust compiler would have enforced it.
 */
module StateTree {

  /** The identity of a vector item (`VecItem::Id`) and the key of a map (`MapItem::Id`). */
  type Key = int

  /**
   * Static types of state values. `AnyTy` is `Box<dyn Any>`. Integer types
   * and structs carry their name, so that two of them with the same shape
   * are still different types, as their `TypeId`s are.
   */
  datatype Ty =
    | ScalarTy(scalarName: string)
    | TextTy
    | RecordTy(recordName: string, fieldTys: map<string, Ty>)
    | VecTy(elemTy: Ty)
    | ArrayTy(elemTy: Ty, len: nat)
    | MapTy(valueTy: Ty)
    | OptionTy(someTy: Ty)
    | BoxTy(pointeeTy: Ty)
    | AnyTy

  /**
   * A node of the state tree: an integer, a string, a struct with named
   * fields, a `Vec`, a fixed-length array `[T; N]`, a `HashMap`, an
   * `Option`, a `Box`, or a `Box<dyn Any>` whose dynamic type is recorded
   * next to its payload.
   */
  datatype Value =
    | Scalar(n: int)
    | Text(text: string)
    | Record(fields: map<string, Value>)
    | Vec(items: seq<Value>)
    | Array(elems: seq<Value>)
    | Map(entries: map<Key, Value>)
    | OptNone
    | OptSome(content: Value)
    | Boxed(pointee: Value)
    | Dynamic(ty: Ty, payload: Value)

  /** `v` is a value of type `t`; an array's length is part of its type. */
  predicate HasType(v: Value, t: Ty)
    decreases v
  {
    match v
    case Scalar(_) => t.ScalarTy?
    case Text(_) => t == TextTy
    case Record(fs) =>
      && t.RecordTy?
      && fs.Keys == t.fieldTys.Keys
      && forall name | name in fs :: HasType(fs[name], t.fieldTys[name])
    case Vec(items) =>
      t.VecTy? && forall i | 0 <= i < |items| :: HasType(items[i], t.elemTy)
    case Array(elems) =>
      && t.ArrayTy?
      && |elems| == t.len
      && forall i | 0 <= i < |elems| :: HasType(elems[i], t.elemTy)
    case Map(m) =>
      t.MapTy? && forall k | k in m :: HasType(m[k], t.valueTy)
    case OptNone => t.OptionTy?
    case OptSome(x) => t.OptionTy? && HasType(x, t.someTy)
    case Boxed(x) => t.BoxTy? && HasType(x, t.pointeeTy)
    case Dynamic(dynTy, x) => t == AnyTy && HasType(x, dynTy)
  }
}
