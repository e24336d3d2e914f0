/** Failure-carrying wrappers shared by the bot model and the command loop.

    - Option<T> stands for a value that may be absent (an unset environment variable).
    - Result<T, E> stands for a collaborator call that either returns a value or raises;
      the error payload is the text `str(e)` of the exception.
 */
module Results {

  datatype Option<+T> = None | Some(value: T)

  datatype Result<+T, +E> = Success(value: T) | Failure(error: E)
}
