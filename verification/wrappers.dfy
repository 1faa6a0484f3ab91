/** The two failure-carrying datatypes the model uses in place of JavaScript's
    `undefined` and of a thrown `TypeError`. */
module Wrappers {

  /** `None` stands for JavaScript's `undefined`, e.g. an array read past its end. */
  datatype Option<+T> = None | Some(value: T)

  /** `Failure` stands for an exception that aborts the handler. */
  datatype Result<+R, +E> = Success(value: R) | Failure(error: E)
}
