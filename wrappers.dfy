/** Failure-carrying values shared by the model: an optional value, a result
    with a string error, and the reply of a call to the hosted model (either
    the call was rejected with an error, or it answered with a value). */
module Wrappers {

  datatype Option<+T> = None | Some(value: T)

  datatype Result<+T> = Success(value: T) | Failure(error: string)

  /** What an awaited network call produced: a thrown error or a value. */
  datatype Reply<+T> = Rejected(error: string) | Answered(value: T)
}
