/** Optional values, used where the source returns an `Option` or panics on a failed assertion. */
module Wrappers {
  datatype Option<+T> = None | Some(value: T)
}
