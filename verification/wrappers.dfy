/** The optional-value datatype used for JavaScript's `undefined`/`null`
    alternatives throughout the model. */
module Wrappers {

  /** `None` stands for an absent value (`undefined` or `null`). */
  datatype Option<+T> = None | Some(value: T)
}
