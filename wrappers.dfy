/** The failure marker of a navigation: a path either reaches a value or it does not. */
module Wrappers {
  datatype Option<+T> = None | Some(value: T)
}
