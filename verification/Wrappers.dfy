/** A value that may be missing, as the sources' null pointers and end iterators say. */
module Wrappers {
  datatype Option<+T> = None | Some(value: T)
}
