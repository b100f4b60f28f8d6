/** The two small types every other module uses. */
module Wrappers {
  datatype Option<+T> = None | Some(value: T)

  function Max(a: int, b: int): int { if a < b then b else a }

  function Min(a: int, b: int): int { if a < b then a else b }

  /** Whatever the world answers. */
  method Arbitrary<T(0)>() returns (answer: T) {
    answer := *;
  }
}
