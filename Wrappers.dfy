/** The optional value used wherever the Python code returns a result or fails. */
module Wrappers {
  datatype Option<+T> = None | Some(value: T)
}
