/**
 * The paths the `RustState` derive macro emits: `State::path()`, the root,
 * and one accessor per struct field.
 */
module DerivedPaths {
  import opened Wrappers
  import opened StateTree
  import opened Paths

  /**
   * The root path reaches the state itself, a write through it replaces the
   * whole state, and it is safe.
   */
  lemma RootFollows(s: Value, v: Value)
    ensures Follow(Root, s) == Some(s) && FollowMut(Root, s) == Some(s) && SelectPath(Root, s) == Some(s)
    ensures Write(Root, s, v) == Some(v)
    ensures Safe(Root)
  {
  }

  /**
   * On a well-typed state a field accessor resolves exactly when its inner
   * path does, and reaches that field of the struct; `select` is `follow`.
   */
  lemma FieldFollows(q: Path, name: string, root: Ty, s: Value)
    requires TypeOf(Field(q, name), root).Some? && HasType(s, root) && ConversionsTyped(q)
    ensures Follow(Field(q, name), s).Some? <==> Follow(q, s).Some?
    ensures Follow(Field(q, name), s).Some? ==> Follow(Field(q, name), s).value == Follow(q, s).value.fields[name]
    ensures SelectPath(Field(q, name), s) == Follow(Field(q, name), s)
  {
    FollowTyped(q, root, s);
  }

  /**
   * A field accessor's `follow_mut` reaches that field of what its inner
   * path's `follow_mut` reaches: writing through it replaces that field and
   * keeps the struct's other fields.
   */
  lemma FieldFollowMut(q: Path, name: string, s: Value, v: Value)
    ensures FollowMut(Field(q, name), s).Some? <==>
      FollowMut(q, s).Some? && FollowMut(q, s).value.Record? && name in FollowMut(q, s).value.fields
    ensures Write(Field(q, name), s, v).Some? <==> FollowMut(Field(q, name), s).Some?
    ensures FollowMut(Field(q, name), s).Some? ==>
      var fields := FollowMut(q, s).value.fields;
      FollowMut(Field(q, name), s) == Some(fields[name]) &&
      Write(Field(q, name), s, v) == Write(q, s, Record(fields[name := v])) &&
      fields[name := v].Keys == fields.Keys &&
      forall other :: other in fields && other != name ==> fields[name := v][other] == fields[other]
  {
    FollowMutIffWrite(Field(q, name), s, v);
  }

  /** A field accessor keeps its inner path's `SAFE`. */
  lemma FieldKeepsSafe(q: Path, name: string)
    ensures Safe(Field(q, name)) == Safe(q)
  {
  }
}
