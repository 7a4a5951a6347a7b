/** The optional value used wherever JavaScript has `undefined` or a missing key. */
module Wrappers {

  datatype Option<+T> = None | Some(value: T)
}
