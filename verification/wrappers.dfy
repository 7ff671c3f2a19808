/** The optional-value datatype used across the model for "found / not found" answers. */
module Wrappers {

  /** Either nothing, or one value. */
  datatype Option<+T> = None | Some(value: T)
}
