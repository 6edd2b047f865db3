/** Small helper types shared by the models. */
module Wrappers {

  /** A value that may be absent: JavaScript's `null` on one side, a value on the other. */
  datatype Option<+T> = None | Some(value: T)
}
