/** Optional values: a value read back from browser storage may be absent (`null`). */
module Wrappers {
  datatype Option<+T> = None | Some(value: T)
}
