/** The optional value used for JavaScript's `null`-able fields and Python's `None`. */
module Wrappers {
  datatype Option<+T> = None | Some(value: T)
}
