/** The Option type used for "no such gate", "index out of range" and similar absent results. */
module Wrappers {
  datatype Option<+T> = None | Some(value: T)
}
