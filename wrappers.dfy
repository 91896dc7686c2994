/** Optional values: a DOM query that finds nothing, an attribute that is not set. */
module Wrappers {
  datatype Option<+T> = None | Some(value: T)
}
