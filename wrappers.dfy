/** Optional values: the Go handlers signal "no such id" and "does not parse"
    with a second return value (`err`) or by falling out of a loop; here both
    become `None`. */
module Wrappers {

  datatype Option<+T> = None | Some(value: T)
}
