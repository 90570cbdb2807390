/** The datatype for a value that may be absent, shared by every module. */
module Wrappers {
  datatype Option<+T> = None | Some(value: T)
}
