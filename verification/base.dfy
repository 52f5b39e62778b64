/** Small shared vocabulary: an optional value and integer min/max. */
module Base {

  /** A value that may be absent (Python's `None`, JavaScript's `null`). */
  datatype Option<T> = None | Some(value: T)

  function Min(a: int, b: int): int
  {
    if a <= b then a else b
  }

  function Max(a: int, b: int): int
  {
    if a >= b then a else b
  }
}
