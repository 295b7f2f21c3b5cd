/** The optional value used wherever the source passes `null` or may have nothing. */
module Wrappers {
  datatype Option<+T> = None | Some(value: T)
}
