/** Failure-carrying result of a query run: the value on success, or the error
    that aborted the run. */
module Results {

  datatype Result<+T, +E> = Success(value: T) | Failure(error: E)

}
