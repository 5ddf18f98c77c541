/** Optional values: JavaScript's `null`/`undefined` results and "not found" answers. */
module Wrappers {

  datatype Option<+T> = None | Some(value: T)
}
