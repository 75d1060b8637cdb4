/** The optional value used for Go's nil-able results (a nil error, a failed decode). */
module Wrappers {

  datatype Option<+T> = None | Some(value: T)
}

/** Go's byte, the element type of the response body and of the stream's buffer. */
module Bytes {
  newtype byte = x: int | 0 <= x < 256
}
