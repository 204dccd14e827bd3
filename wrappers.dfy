/** Option and Result values standing in for `undefined`/`null` and for a
    rejected promise. */
module Wrappers {

  datatype Option<+T> = None | Some(value: T)

  /** The value as a list of at most one element. */
  function AsSeq<T>(o: Option<T>): seq<T> {
    if o.Some? then [o.value] else []
  }

  /** The settled value of a promise: fulfilled with `value` or rejected with an
      error whose `toString()` is `error`. */
  datatype Result<+R> = Success(value: R) | Failure(error: string)

  /** A settled `Promise<void>`. */
  datatype Outcome = Pass | Fail(error: string)
}
