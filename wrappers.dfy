/** Optional values, used wherever the source has "no value" (a missing key, an empty queue). */
module Wrappers {

  datatype Option<+T> = None | Some(value: T)
}
