/** Option and Result, the two failure-compatible shapes the model uses for
    Rust's `Option` and `Result`. */
module Wrappers {

  datatype Option<+T> = None | Some(value: T) {
    function GetOr(default: T): T {
      match this
      case Some(v) => v
      case None => default
    }
  }

  datatype Result<+T, +E> = Ok(value: T) | Err(error: E)
}

/** The error type of the client (src/errors.rs). */
module Errors {

  datatype ApiError =
    | Miscellaneous(message: string)
    | Authentication(message: string)
    | Parsing(message: string)
    | Network(message: string)
}
