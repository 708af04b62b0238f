/** Optional values: the model's stand-in for JavaScript's null/undefined and
    for a key that an object may or may not carry. */
module Wrappers {

  datatype Option<+T> = None | Some(value: T)
}
