/** Optional values: the model's stand-in for Go's nil and Java/JavaScript nulls. */
module Wrappers {

  datatype Option<+T> = None | Some(value: T)
}
