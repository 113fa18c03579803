/** Failure-carrying datatypes shared by the model: `Option` for the
    library parsers that either succeed or fail, and `Result` for the
    operations that return a value or an error, as Rust's `Result` does. */
module Wrappers {

  datatype Option<+T> = None | Some(value: T) {

    /** The encapsulated value, or `default` when there is none
        (Rust's `unwrap_or` / `unwrap_or_default`). */
    function GetOr(default: T): T {
      match this
      case Some(v) => v
      case None => default
    }
  }

  datatype Result<+T, +E> = Ok(value: T) | Err(error: E)
}
