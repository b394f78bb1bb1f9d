/** A value that may be missing: a NULL pointer, a file that cannot be opened. */
module Wrappers {
  datatype Option<+T> = None | Some(value: T)
}
