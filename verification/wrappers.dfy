/** Optional values, used where the source returns a nil handle, a missing
    map entry or a value together with an error. */
module Wrappers {

  datatype Option<+T> = None | Some(value: T)
}
