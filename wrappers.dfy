/** The optional value used for absent JSON bodies, absent chat deltas and absent chunk ids. */
module Wrappers {

  datatype Option<+T> = None | Some(value: T)
}
