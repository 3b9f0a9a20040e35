/** The Option datatype used for Python's `None` and for pandas' missing (NaN) cells. */
module Wrappers {

  datatype Option<+T> = None | Some(value: T)
}
