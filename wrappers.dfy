/** The optional value used wherever the engine returns a null reference or a NaN "no result" vector. */
module Wrappers {

  datatype Option<+T> = None | Some(value: T)

}
