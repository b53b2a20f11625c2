/** Value types shared by every part of the model: Go's byte strings, 64-bit
    integers, timestamps, and the optional/either values that stand in for
    Go's nil pointers and `(value, error)` returns. */
module Base {

  /** Go's `string` and `[]byte` convert into each other byte for byte, so the
      model uses one sequence type for both. */
  type Bytes = string

  /** Go's `int64`. */
  type int64 = x: int | -0x8000_0000_0000_0000 <= x < 0x8000_0000_0000_0000

  /** A wall-clock reading (`time.Time`). The clock is outside the model: every
      operation that calls `time.Now` receives the reading as a parameter. */
  datatype Timestamp = Timestamp(unixNanos: int)

  datatype Option<+T> = None | Some(value: T)

  /** A Go `(value, error)` pair where exactly one side is meaningful. */
  datatype Result<+T, +E> = Ok(value: T) | Err(error: E)
}
