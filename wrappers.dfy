/** A value that may be absent: a missing element or an unset attribute. */
module Wrappers {
  datatype Option<T> = None | Some(value: T)
}
