/** What every module shares: optional values, results of operations that may raise, trade sides, real arithmetic. */
module Common {

  datatype Option<+T> = None | Some(value: T)

  datatype Result<+T, +E> = Ok(value: T) | Err(error: E)

  datatype Side = Buy | Sell

  function Abs(x: real): real {
    if x < 0.0 then -x else x
  }

  /** A product under a name, so that proofs can treat it as a unit. */
  function Times(a: real, b: real): real {
    a * b
  }
}
