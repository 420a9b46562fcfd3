/** Small failure-carrying datatypes shared by the other modules. */
module Wrappers {

  /** A value that may be absent: Python's `None` versus a real value. */
  datatype Option<+T> = None | Some(value: T)
}
