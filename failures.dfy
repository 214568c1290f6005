/** The two exceptions the core throws, and a result type that carries them. */
module Failures {

  /** GameNotFoundException and IllegalArgumentException, each with its message. */
  datatype Error =
    | GameNotFound(message: string)
    | IllegalArgument(message: string)

  /** Either a value or the exception the Java method would throw instead. */
  datatype Result<+T> = Ok(value: T) | Err(error: Error)
}
