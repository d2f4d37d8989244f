/** Results and optional values, shared by every module of the model. */
module Wrappers {
  datatype Option<+T> = None | Some(value: T)

  datatype Result<+T, +E> = Success(value: T) | Failure(error: E)
}

/** Octets, as the wire and the streams carry them. */
module Octets {
  newtype byte = x: int | 0 <= x < 256
}
