/** The optional value used for nullable columns and absent results. */
module Wrappers {
  datatype Option<+T> = None | Some(value: T)
}
