/** Shared value types: optional values and the outcome of a call that may raise. */
module Common {

  datatype Option<+T> = None | Some(value: T) {
    function GetOr(default_: T): T { if Some? then value else default_ }
  }

  /** `Err` stands for the exception a service raises instead of returning. */
  datatype Result<+T, +E> = Ok(value: T) | Err(error: E)

  function Min(a: int, b: int): int { if a < b then a else b }

  function Max(a: int, b: int): int { if a < b then b else a }
}
