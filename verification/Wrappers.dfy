/** The usual Option. */
module Wrappers {
  datatype Option<+T> = None | Some(value: T)
}
