/** The optional value used for the source's `Option` and for results that may be absent. */
module Wrappers {
  datatype Option<+T> = None | Some(value: T)
}
