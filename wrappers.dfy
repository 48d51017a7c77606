/** Optional values: Ruby's `nil` where a value may be missing. */
module Wrappers {

  datatype Option<+T> = None | Some(value: T)
}
