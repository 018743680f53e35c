/** Small types shared by every part of the model. */
module Prelude {

  /** A nullable column or an optional argument. */
  datatype Option<+T> = None | Some(value: T)

  /** The value an operation returns, or the exception it raises. */
  datatype Result<+T, +E> = Ok(value: T) | Raised(error: E)
}
