/** A value that may be absent: a Python `None`, a missing dictionary key or an empty result. */
module Wrappers {

  datatype Option<T> = None | Some(value: T)
}
