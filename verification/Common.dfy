/** Shared small types: optional values, failure-compatible results, and the width of a signed 64-bit column. */
module Common {

  datatype Option<+T> = None | Some(value: T)

  datatype Result<+T, +E> = Ok(value: T) | Err(error: E) {
    predicate IsFailure() {
      Err?
    }

    function PropagateFailure<U>(): Result<U, E>
      requires Err?
    {
      Err(error)
    }

    function Extract(): T
      requires Ok?
    {
      value
    }
  }

  /** The largest revision a bigint column and a Go int64 can hold. */
  const MAX_INT64: int := 0x7FFF_FFFF_FFFF_FFFF

  function Sign(x: int): (r: int)
    ensures r == 0 <==> x == 0
  {
    if x < 0 then -1 else if x > 0 then 1 else 0
  }
}
