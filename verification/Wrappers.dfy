/** The optional value used wherever the source has a nullable column, a missing key or None. */
module Wrappers {
  datatype Option<+T> = None | Some(value: T)
}
