/** Optional values and the error tags the job handlers produce. */
module Outcomes {

  /** A value that may be absent (an omitted query parameter, a missing document). */
  datatype Option<T> = None | Some(value: T)

  /** How a job handler fails. */
  datatype Error =
    /** No job document has the requested id: the handler answers 404. */
    | JobNotFound
    /** The handler read a property of `null` or `undefined` and threw. */
    | TypeError

  /** The outcome of a handler: a value, or the error it fails with. */
  datatype Result<T> = Success(value: T) | Failure(error: Error)
}
