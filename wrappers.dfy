/** The optional value used for "matched / did not match". */
module Wrappers {
  datatype Option<+T> = None | Some(value: T)
}
