/** PHP values at the boundary of the Optional container: the `null`
    absent-marker, the two exceptions the container raises, and the
    return-or-throw outcome of a call. */
module Php {

  /** A PHP value that may be `null`. By convention `T` stands for the
      non-null values of the caller's type and is never itself a `Nullable`
      type, so `NonNull(v)` never holds `null`. */
  datatype Nullable<T> = Null | NonNull(v: T)

  /** A caller's `Throwable` object, known only by its identity. */
  datatype Throwable = Throwable(handle: nat)

  /** What a call can throw: the container's own `NullPointerException` and
      `NoSuchElementException`, or a caller-supplied throwable `e`, which is
      passed through unchanged. */
  datatype Exception = NullPointerException | NoSuchElementException | Thrown(e: Throwable)

  /** The outcome of a PHP call: it returns `value` or throws `ex`. */
  datatype Result<R> = Ok(value: R) | Err(ex: Exception)
}
