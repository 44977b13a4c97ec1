/** Optional values and fallible results, used in place of Java's `null`,
    Guava's `Optional` and thrown exceptions. */
module Wrappers {

  /** Guava's `Optional`: `None` is `Optional.absent()`, `Some(v)` is `Optional.of(v)`. */
  datatype Option<+T> = None | Some(value: T)

  /** The outcome of an operation that may fail with an error of type `E`. */
  datatype Result<+R, +E> = Success(value: R) | Failure(error: E)
}
