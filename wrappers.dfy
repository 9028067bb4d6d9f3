/** The Option datatype used for values that a JavaScript computation may leave undefined (or NaN). */
module Wrappers {

  datatype Option<+T> = None | Some(value: T)
}
