/** Option, Result and Outcome: the absent value, the value-or-error and the
    pass-or-error shapes that stand in for JavaScript's `undefined` and for a
    rejected promise or a thrown exception. */
module Wrappers {

  datatype Option<+T> = None | Some(value: T)

  datatype Result<+R, +E> = Success(value: R) | Failure(error: E)

  datatype Outcome<+E> = Pass | Fail(error: E)
}
