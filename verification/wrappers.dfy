/** The optional value used wherever the client tests a field for truthiness. */
module Wrappers {
  datatype Option<+T> = None | Some(value: T)
}
