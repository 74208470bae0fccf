/** Optional values, used for "nothing rendered yet" and for a missing DOM lookup result. */
module Wrappers {
  datatype Option<+T> = None | Some(value: T)
}
