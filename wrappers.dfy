/** Optional values and error-carrying results, the Dafny counterparts of Swift's
    `Optional` and of a function that either returns or throws. */
module Wrappers {

  datatype Option<+T> = None | Some(value: T)

  datatype Result<+T, +E> = Success(value: T) | Failure(error: E)

  /** What running a piece of code that may trap or never finish comes to:
      it returned a value, it stopped the program (a failed index or force
      unwrap), or it loops forever (a rejection loop with nothing left to pick). */
  datatype Run<+T> = Returned(value: T) | Trapped | Diverged
}
