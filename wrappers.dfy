/** Optional values: a missing (NULL) word or node in the source is None. */
module Wrappers {
  datatype Option<+T> = None | Some(value: T)
}
