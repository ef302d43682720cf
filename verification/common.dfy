/** Failure-carrying wrappers and the byte type shared by every module. */
module Common {

  /** A value that may be missing, where the Go code has a nil pointer. */
  datatype Option<T> = None | Some(value: T)

  /** The value held, or `default` when there is none: what reading a field
      that a decoder may leave untouched yields. */
  function ValueOr<T>(o: Option<T>, default: T): T {
    if o.Some? then o.value else default
  }

  /** A value, or the error a Go function returns in its place. */
  datatype Result<T, E> = Success(value: T) | Failure(error: E)

  newtype byte = x: int | 0 <= x < 256

  type Bytes = seq<byte>
}
