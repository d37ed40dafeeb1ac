/** Optional values, standing in for the source's nullable pointers and
    out-parameters that may be left unset. */
module Wrappers {
  datatype Option<+T> = None | Some(value: T)
}
