/** Optional values, used for the keys that may be missing from the shared store and for the
    calls that raise in the server (a `None` result stands for "raised, nothing was written"). */
module Wrappers {

  datatype Option<+T> = None | Some(value: T)
}
