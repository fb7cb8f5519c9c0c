/** Optional values, standing in for Go's `(value, ok)` and `(value, err)` returns. */
module Wrappers {

  datatype Option<+T> = None | Some(value: T)
}
