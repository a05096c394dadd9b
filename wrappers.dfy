/** The optional value used for a possibly-null reference, an absent reply and the like. */
module Wrappers {
  datatype Option<+T> = None | Some(value: T)
}
