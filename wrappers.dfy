/** An optional value: a prop or a field that may be missing. */
module Wrappers {
  datatype Option<+T> = None | Some(value: T)
}
