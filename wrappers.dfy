/** The optional result every store operation returns: `Some` on success, `None` on failure. */
module Wrappers {
  datatype Option<+T> = None | Some(value: T)
}
