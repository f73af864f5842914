/** Optional values, used for lookups that may find nothing and for schema casts that may fail. */
module Wrappers {
  datatype Option<+T> = None | Some(value: T)
}
