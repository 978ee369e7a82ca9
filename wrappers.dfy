/** Optional values: an argument the caller may leave undefined. */
module Wrappers {
  datatype Option<+T> = None | Some(value: T)
}
