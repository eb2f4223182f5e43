/** Optional values: the plot's "at most one element" arrays and `null`-able fields. */
module Wrappers {

  datatype Option<+T> = None | Some(value: T)
}
