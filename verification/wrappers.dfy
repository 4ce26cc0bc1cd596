/** Optional values, used for lookups that may find nothing and for load errors. */
module Wrappers {

  datatype Option<+T> = None | Some(value: T)
}
