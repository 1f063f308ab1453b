/** The failure-compatible result of a call that may yield nothing. */
module Wrappers {
  datatype Option<+T> = None | Some(value: T)
}
