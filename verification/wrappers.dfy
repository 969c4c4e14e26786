/** Optional values, used for the resolver's "no match" and "unknown category" outcomes. */
module Wrappers {

  datatype Option<+T> = None | Some(value: T)
}
