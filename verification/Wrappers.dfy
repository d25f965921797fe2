/** A value that may be absent: SQL's NULL, a `null` reference or a missing key. */
module Wrappers {
  datatype Option<+T> = None | Some(value: T)
}
