module Wrappers {
  /** What a source function returns as a value or nothing. */
  datatype Option<+T> = None | Some(value: T)
}
