/** The outcome of an operation that can be rejected. */
module Results {

  datatype Result<+R, +E> = Success(value: R) | Failure(error: E)
}
