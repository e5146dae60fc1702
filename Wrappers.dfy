/** The optional value used where a reading of the clock text can fail. */
module Wrappers {

  datatype Option<+T> = None | Some(value: T)
}
