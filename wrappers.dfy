/** The optional value of the source's `null`/`undefined` and of a missing JSON key. */
module Wrappers {
  datatype Option<+T> = None | Some(value: T)
}
