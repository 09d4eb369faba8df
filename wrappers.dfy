/** A value that may be absent: JavaScript's `null` / `undefined` on the fields that hold one. */
module Wrappers {

  datatype Option<+T> = None | Some(value: T)
}
