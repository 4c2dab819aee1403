/** A value that may be absent: JavaScript's `null`/`undefined`, or a `NaN`. */
module Wrappers {

  datatype Option<+T> = None | Some(value: T)
}
