/** Optional values: Go's nil-able interface values (an `error` that may be nil). */
module Wrappers {
  datatype Option<+T> = None | Some(value: T)
}
