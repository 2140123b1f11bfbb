module Wrappers {
  /** A result that may be missing: the sources' null pointers and false returns. */
  datatype Option<+T> = None | Some(value: T)
}
