/** Optional values: the `T | null` and `T | undefined` of the source. */
module Wrappers {
  datatype Option<+T> = None | Some(value: T)
}
