/** A value that may be absent: a null pointer, a missing key, a failed read. */
module Wrappers {

  datatype Option<+T> = None | Some(value: T)
}
