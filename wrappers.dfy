/** An optional value: a hit that may or may not have happened, a sample that may or may not have been accepted. */
module Wrappers {
  datatype Option<T> = None | Some(value: T)
}
