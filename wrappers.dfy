/** The absent-or-present value the model uses where the program yields `undefined`. */
module Wrappers {
  datatype Option<+T> = None | Some(value: T)
}
