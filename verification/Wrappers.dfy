/** Optional values and pass/fail outcomes, standing in for Rust's `Option` and
    `anyhow::Result<()>`. */
module Wrappers {

  /** `Some(value)` or `None`, as Rust's `Option`. */
  datatype Option<+T> = None | Some(value: T)

  /** The outcome of an operation that returns `Result<()>`: `Pass` for `Ok(())`,
      `Fail(error)` for `Err(error)`. */
  datatype Outcome<+E> = Pass | Fail(error: E)
}
