/** The success-or-error outcome of every decoding step. A Go function
    returning `(T, error)` becomes a `Result<T, E>`: exactly one of the two
    halves is meaningful. */
module Results {

  datatype Result<+T, +E> = Success(value: T) | Failure(error: E)

}
