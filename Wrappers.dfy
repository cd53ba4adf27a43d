/** Missing values, outcomes and the exceptions the string mapping layer can raise. */
module Wrappers {

  /** A column cell: `None` is a missing value (a Java `null`). */
  datatype Option<+T> = None | Some(value: T)

  /** The outcome of an operation that either returns normally or throws. */
  datatype Result<+T, +E> = Success(value: T) | Failure(error: E)

  /** The exceptions raised on the paths this model follows. */
  datatype Error =
    | StringIndexOutOfBounds              // String.substring with bad bounds
    | IllegalArgument(message: string)    // Preconditions.checkArgument failed
    | ArrayIndexOutOfBounds               // value[0] on an empty array
}
