/** Optional values: JavaScript's `null` / `undefined` where the source uses them. */
module Wrappers {

  datatype Option<+T> = None | Some(value: T)
}
