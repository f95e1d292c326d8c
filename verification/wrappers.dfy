/** The optional-value datatype shared by the other modules. */
module Wrappers {

  /** An optional value: `None` where JavaScript would yield `undefined`. */
  datatype Option<+T> = None | Some(value: T)
}
