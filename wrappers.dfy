/** A value that may be absent: a missing request field, a null reference. */
module Wrappers {
  datatype Option<+T> = None | Some(value: T)
}
