/** The optional value used where the component uses `null`. */
module Wrappers {
  datatype Option<+T> = None | Some(value: T)
}
