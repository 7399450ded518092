/** The optional value used wherever the dashboard stores `None`. */
module Wrappers {
  datatype Option<+T> = None | Some(value: T)
}
