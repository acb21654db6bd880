/** Optional values and results shared by every module of the model. */
module Base {

  /** `null`/`undefined` on one side, a present value on the other. */
  datatype Option<+T> = None | Some(value: T)

  /** A completed computation or the error it threw. */
  datatype Result<+T, +E> = Success(value: T) | Failure(error: E)

  function Min(a: int, b: int): int { if a <= b then a else b }

  function Max(a: int, b: int): int { if a <= b then b else a }

  lemma AppendAssoc<T>(a: seq<T>, b: seq<T>, c: seq<T>)
    ensures a + (b + c) == (a + b) + c
  {
  }
}
