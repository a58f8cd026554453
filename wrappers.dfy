/** Optional values (Java's nullable references) and results that either carry a
    value or the exception a call would have thrown. */
module Wrappers {

  datatype Option<+T> = None | Some(value: T)

  datatype Result<+T, +E> = Success(value: T) | Failure(error: E)
}
