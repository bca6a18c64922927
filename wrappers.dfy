/** The optional value used for Go's nil-able returns. */
module Wrappers {

  datatype Option<+T> = None | Some(value: T)
}
