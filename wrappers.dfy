/** Optional values: a JS field that may be `null` / absent. */
module Wrappers {

  datatype Option<+T> = None | Some(value: T)

}
