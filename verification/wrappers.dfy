/** Optional values: `None` stands for JavaScript's `undefined` or `false` result. */
module Wrappers {

  datatype Option<+T> = None | Some(value: T)

}
