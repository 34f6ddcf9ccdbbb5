/** The optional value used for the single storage slot of the favorites store. */
module Wrappers {
  datatype Option<+T> = None | Some(value: T)
}
