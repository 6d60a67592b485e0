/** Optional values: JavaScript's `undefined`/`null` results and absent answers. */
module Wrappers {
  datatype Option<+T> = None | Some(value: T)
}
