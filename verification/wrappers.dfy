/** The optional value used where the source stores `null` or reads `undefined`. */
module Wrappers {

  datatype Option<+T> = None | Some(value: T)
}
