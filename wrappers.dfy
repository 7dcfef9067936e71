/** Optional value, used for the source's `Option` and
    for fallible outcomes reported by the interpreter or the filesystem. */
module Wrappers {

  datatype Option<+T> = None | Some(value: T)
}
