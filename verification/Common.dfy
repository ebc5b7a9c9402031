/** Small value types shared by every module of the model. */
module Common {

  datatype Option<+T> = None | Some(value: T) {
    /** The first value present, as SQL's `coalesce` and Python's `or` pick it. */
    function Or(other: Option<T>): Option<T> {
      if Some? then this else other
    }
  }

  datatype Result<+T, +E> = Ok(value: T) | Err(error: E)

  function Min(a: int, b: int): int {
    if a <= b then a else b
  }

  function Max(a: int, b: int): int {
    if a >= b then a else b
  }

  function Abs(x: real): real {
    if x < 0.0 then -x else x
  }
}
