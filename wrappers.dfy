/** The optional-value datatype returned by the lookup structures' `find`. */
module Wrappers {

  /** `None` is Python's `None` coming back from a failed lookup. */
  datatype Option<+T> = None | Some(value: T)
}
