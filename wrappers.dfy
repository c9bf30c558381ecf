/** The optional value used for a load that may fail and a value that may be undefined. */
module Wrappers {
  datatype Option<+T> = None | Some(value: T)
}
