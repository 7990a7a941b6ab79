/** Optional values, used for "no navigation issued" and "character not found". */
module Wrappers {

  datatype Option<+T> = None | Some(value: T)
}
