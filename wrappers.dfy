/** The optional value used wherever the source returns `None` or swallows an error. */
module Wrappers {
  datatype Option<+T> = None | Some(value: T)
}
