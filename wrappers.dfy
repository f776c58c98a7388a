/** Small option type shared by the modules of this model. */
module Wrappers {

  /** A value that may be absent: a null pointer, or a loop that has not exited yet. */
  datatype Option<+T> = None | Some(value: T)
}
