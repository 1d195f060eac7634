/** The results and the arithmetic that every other module shares. */
module Wrappers {
  datatype Option<+T> = None | Some(value: T)

  datatype Result<+T, +E> = Success(value: T) | Failure(error: E)

  const U32_LIMIT := 0x1_0000_0000

  function Min(a: int, b: int): int {
    if a <= b then a else b
  }
}
