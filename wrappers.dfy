/** A value that may be absent: JavaScript's `null` / `undefined` where the model needs one. */
module Wrappers {
  datatype Option<+T> = None | Some(value: T)
}
