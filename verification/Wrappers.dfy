/** The two result shapes the model uses for Python's `None` and for a raised exception. */
module Wrappers {

  /** A value that may be absent, as Python's `Optional[T]`. */
  datatype Option<+T> = None | Some(value: T)

  /** A call that either returns or raises `ValueError` / `RuntimeError`. */
  datatype Outcome<+T> = Ok(value: T) | Raised
}
