/** Optional values: an absent JavaScript property, or a `null` result. */
module Wrappers {

  datatype Option<+T> = None | Some(value: T)
}
