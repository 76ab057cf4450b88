/** Optional values, for the inputs a request may omit and for the partial
    library calls (UTF-8 decoding, JSON parsing) the handler relies on. */
module Wrappers {

  datatype Option<+T> = None | Some(value: T)
}
