/** The Some/None datatype used for the nullable values of the model. */
module Wrappers {

  datatype Option<+T> = None | Some(value: T)
}
