/** The optional-value datatype shared by the other modules. */
module Wrappers {

  /** A value that may be missing: Python's `None` or a failed lookup. */
  datatype Option<+T> = None | Some(value: T)
}
