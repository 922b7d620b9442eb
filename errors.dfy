/** What a computation of the source can end in: a returned value, or one of
    the exceptions the modelled code raises. */
module Errors {

  /** `IndexError`: a tuple indexed past its end (popping an empty stack).
      `TypeError`: a function called with the wrong number of arguments. */
  datatype Exception = IndexError | TypeError

  datatype Result<T> = Ok(value: T) | Raised(error: Exception)
}
