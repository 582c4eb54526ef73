/** Rust prelude types the application relies on. */
module Base {

  /** Rust's `u16`: the width of `stargazers_count` and of `Pokemon::number`. */
  type u16 = x: int | 0 <= x < 0x1_0000

  /** Rust's `Option<T>`. */
  datatype Option<T> = None | Some(value: T) {

    /** Rust's `Option::unwrap_or`: the carried value, or `default` when there is none. */
    function UnwrapOr(default: T): T {
      match this
      case Some(v) => v
      case None => default
    }
  }

  /** Rust's `Result<T, E>`. */
  datatype Result<T, E> = Ok(value: T) | Err(error: E)
}
