/** Option and Result: the null reference and the thrown exception of the
    container, as values. */
module Wrappers {

  /** `None` stands for the null a dictionary lookup leaves in its out parameter. */
  datatype Option<+T> = None | Some(value: T)

  /** `Failure` stands for an exception thrown out of an operation. */
  datatype Result<+T, +E> = Success(value: T) | Failure(error: E)
}
