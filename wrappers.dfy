/** Optional values: `None` stands for JavaScript's `undefined` (or any falsy value) where the source tests truthiness. */
module Wrappers {

  datatype Option<+T> = None | Some(value: T)

}
