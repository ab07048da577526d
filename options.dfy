/** Option and Result, the error-carrying values the model returns where Go
    returns a zero value together with a non-nil `error`. */
module Options {

  datatype Option<+T> = None | Some(value: T)

  /** A Go runtime failure or a returned `error`. `Panic` stands for a panic
      (an index out of range, say), which Go does not return but raises. */
  datatype Failure = Error(message: string) | Panic

  datatype Result<+T> = Ok(value: T) | Err(failure: Failure)
}
