/** A value that may be absent: an unset environment variable, a `null` state, a missing JSON field. */
module Wrappers {
  datatype Option<+T> = None | Some(value: T)
}
