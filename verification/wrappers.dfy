/** Option, used for Go's `(value, error)` returns and for "nil or not" lookups. */
module Wrappers {
  datatype Option<+T> = None | Some(value: T)
}
