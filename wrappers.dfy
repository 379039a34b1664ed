/** Optional values: JavaScript's `undefined` for an index past the end of an array. */
module Wrappers {

  datatype Option<+T> = None | Some(value: T)
}
