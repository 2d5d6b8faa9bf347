/** The parser's error enum, and the outcome of a call that may also panic. */
module Errors {
  import opened Wrappers
  import opened Text

  /**
   * One variant per variant of the source's `Error`. `Io` carries no payload
   * (the model's line source cannot fail); `InvalidSize` carries the kind of
   * the `ParseIntError`; the `String` payloads are raw bytes.
   */
  datatype Error =
    | Io
    | InvalidSize(kind: IntErrorKind)
    | InvalidInputRange(text: seq<Byte>)
    | InvalidRgb(line: seq<Byte>)
    | UnexpectedInputRange(line: seq<Byte>)
    | CubeIsFull
    | UnexpectedData
    | Eof

  /** A call either returns its `Result` or panics (a slice index out of bounds). */
  datatype Outcome<+T> = Returned(result: Result<T, Error>) | Panicked
}
