/** Optional values, for the decisions that may or may not produce a candidate. */
module Wrappers {
  datatype Option<+T> = None | Some(value: T)
}
