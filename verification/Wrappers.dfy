/** A value that may be missing (Go's comma-ok results). */
module Wrappers {
  datatype Option<+T> = None | Some(value: T)
}
