/** Optional values, used where the source returns None or falls back to an empty node. */
module Wrappers {
  datatype Option<T> = None | Some(value: T)
}
