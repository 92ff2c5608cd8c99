/** Result type for the formatter: a formatted value, or the reason the
    Go code would have stopped (a runtime panic or a fatal log). */
module Wrappers {

  /** Why a call does not produce a value. */
  datatype Failure =
    | InvalidFormat(format: string)   // log.Fatal on a format that is neither text nor numeric
    | IndexOutOfRange                 // format[0] on an empty format, or split[1] with no '.'
    | SliceOutOfRange                 // input[0:length] with a negative length

  datatype Result<+T> = Ok(value: T) | Err(error: Failure)
}
