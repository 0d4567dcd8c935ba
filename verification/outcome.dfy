/** Failure values of the encoder. Each variant stands for the Python
    exception class the FEN encoder raises on that path. */
module Outcome {

  datatype Error =
    | MalformedFenString   // the FEN string does not have six space-separated fields
    | KeyError             // a placement character missing from a piece table
    | ValueError           // bad square letter or digit, unknown tag, unsupported dimension
    | IndexError           // a list or tensor index out of range
    | NotImplementedError  // the six-layer full board

  datatype Result<+T> = Ok(value: T) | Err(error: Error)

  datatype Option<+T> = None | Some(value: T)
}
