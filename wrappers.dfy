/** Optional values: the model's rendering of `undefined` / `null`. */
module Wrappers {

  datatype Option<+T> = None | Some(value: T)
}
