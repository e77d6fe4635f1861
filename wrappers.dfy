/** The optional value returned by reads that may find nothing. */
module Wrappers {

  datatype Option<+T> = None | Some(value: T)
}
