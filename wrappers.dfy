/** The optional value returned by JavaScript's `Array.prototype.find`. */
module Wrappers {

  datatype Option<+T> = None | Some(value: T)
}
