/** The optional value used wherever the driver code works with a pointer that may be NULL. */
module Wrappers {

  datatype Option<+T> = None | Some(value: T)
}
