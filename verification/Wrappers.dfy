/** A value that may be absent: an error not returned, an empty cursor, a closer that is nil. */
module Wrappers {
  datatype Option<T> = None | Some(value: T)
}
