/** Small value wrappers standing for Rust's `Option<T>` and `Result<(), String>`. */
module Base {

  /** Rust's `Option<T>`. */
  datatype Option<+T> = None | Some(value: T)

  /** Rust's `Result<(), String>`: success carries nothing, failure a message. */
  datatype Outcome = Pass | Fail(message: string)
}
