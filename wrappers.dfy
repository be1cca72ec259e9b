/** The optional value used where the servers return Python's `None`. */
module Wrappers {
  datatype Option<+T> = None | Some(value: T)
}
