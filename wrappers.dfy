/** Optional values, used for "no device has this id" and for faults a pin may report. */
module Wrappers {

  datatype Option<+T> = None | Some(value: T)
}
