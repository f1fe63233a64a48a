/** Option and Result values shared by every module of the model. */
module Common {

  /** The Rust `Option<T>`. */
  datatype Option<+T> = None | Some(value: T) {
    function GetOr(default: T): T
    {
      match this
      case Some(v) => v
      case None => default
    }
  }

  /** The Rust `Result<T, E>` (anyhow errors are modelled by their message). */
  datatype Result<+T, +E> = Ok(value: T) | Err(error: E)

  /** The smaller of two reals, as `f64::min` on non-NaN operands. */
  function MinReal(a: real, b: real): real
  {
    if a <= b then a else b
  }

  /** The larger of two reals, as `f64::max` on non-NaN operands. */
  function MaxReal(a: real, b: real): real
  {
    if a >= b then a else b
  }
}
