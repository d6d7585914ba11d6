/** The optional-value datatype used throughout the model. */
module Wrappers {
  /** `None` stands for JavaScript's `undefined`: a missing header, body field or array element. */
  datatype Option<+T> = None | Some(value: T)
}
