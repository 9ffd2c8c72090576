/** The optional value used wherever the source returns `null`/`undefined` or a nullable cell. */
module Wrappers {
  datatype Option<+T> = None | Some(value: T)
}
