/** Results of operations that the source reports through nil, ok flags, errors or panics. */
module Wrappers {
  datatype Option<+T> = None | Some(value: T)

  datatype Result<+T> = Success(value: T) | Failure(error: string)
}
