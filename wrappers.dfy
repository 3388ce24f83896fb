/** Optional values: JavaScript's `null` / `undefined` for a missing node or attribute. */
module Wrappers {

  datatype Option<+T> = None | Some(value: T)
}
