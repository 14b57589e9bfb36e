/** Optional values: an absent query parameter, a missing JSON key, a failed fetch. */
module Wrappers {
  datatype Option<+T> = None | Some(value: T)
}
