/** Small vocabulary shared by every component of the model. */
module Common {

  /** A value that may be absent: a Go nil pointer, a missing key, an unset field. */
  datatype Option<+T> = None | Some(value: T)

  function Max(a: int, b: int): int { if a < b then b else a }

  function Min(a: int, b: int): int { if a < b then a else b }
}
