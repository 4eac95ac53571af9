/** Optional values: Go's nil pointers, absent map entries and empty channel slots. */
module Wrappers {
  datatype Option<+T> = None | Some(value: T)
}
