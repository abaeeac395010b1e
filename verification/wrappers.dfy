/** The optional value used where the source tests for a missing dictionary key. */
module Wrappers {
  datatype Option<+T> = None | Some(value: T)
}
