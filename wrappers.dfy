/** The optional value used for fields a game record may lack. */
module Wrappers {
  datatype Option<+T> = None | Some(value: T)
}
