/** The optional value used for JavaScript arguments that may be `null` or absent. */
module Wrappers {
  datatype Option<T> = None | Some(value: T)
}
