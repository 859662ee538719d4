/** Optional values: the model's stand-in for C# `null` and for "parse failed". */
module Wrappers {

  datatype Option<+T> = None | Some(value: T)
}
