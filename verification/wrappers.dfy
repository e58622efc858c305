/** Optional values: a row that may be missing (`null` in the source). */
module Wrappers {
  datatype Option<T> = None | Some(value: T)
}
