/** Small result types shared by the screens' models. */
module Wrappers {

  /** A value that may be absent: JavaScript's `null`/`undefined` or a NaN parse. */
  datatype Option<+T> = None | Some(value: T)

  /** The outcome of a validator that stops at its first failing check. */
  datatype Check<+E> = Pass | Fail(error: E)

  function Min(a: int, b: int): int { if a <= b then a else b }
}
