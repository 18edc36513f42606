/** The optional value used where the source returns or holds `null`. */
module Wrappers {
  datatype Option<+T> = None | Some(value: T)
}
