/** The one wrapper type every module shares. */
module Wrappers {

  /** Python's `None`, a NULL column, or an exception that carries nothing the caller reads. */
  datatype Option<+T> = None | Some(value: T)
}
