/** The optional value used wherever the source has a null handle, a `None` or an outcome that may be absent. */
module Wrappers {
  datatype Option<+T> = None | Some(value: T)
}
