/** Optional values: an absent JavaScript property, `undefined`, `null` or an empty form field. */
module Wrappers {

  datatype Option<+T> = None | Some(value: T)
}
