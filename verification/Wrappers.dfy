/** An optional value: the source's pointers that may be NULL. */
module Wrappers {
  datatype Option<+T> = None | Some(value: T)
}
