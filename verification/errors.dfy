/** The exceptions the n-gram pipeline can raise, and results that carry them. */
module Errors {

  datatype Error =
    | KeyError           // a context that is not a key of the table
    | IndexError         // `[-1]` of an empty list
    | ZeroDivisionError  // a count divided by a zero total
    | ValueError         // weights whose total is not positive

  datatype Result<T> = Success(value: T) | Failure(error: Error)
}
