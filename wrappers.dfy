/** The optional value used for nullable pointers and for partial functions such as number parsing. */
module Wrappers {
  datatype Option<+T> = None | Some(value: T)
}
