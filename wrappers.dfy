/** Optional values, for the tags an element may lack and the lookups that may find nothing. */
module Wrappers {

  datatype Option<+T> = None | Some(value: T)
}
