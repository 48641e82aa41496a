/** Datatypes shared by the other modules. */
module Common {
  datatype Option<+T> = None | Some(value: T)

  datatype Result<+T, +E> = Ok(value: T) | Err(error: E)

  /** The largest integer for which Number.isSafeInteger holds. */
  const MAX_SAFE_INTEGER: int := 9_007_199_254_740_991

  predicate SafeInteger(n: int) {
    -MAX_SAFE_INTEGER <= n <= MAX_SAFE_INTEGER
  }

  /** String.prototype.slice(0, limit). */
  function Truncate(s: string, limit: nat): string {
    if |s| <= limit then s else s[..limit]
  }

  lemma Assoc<T>(a: seq<T>, b: seq<T>, c: seq<T>)
    ensures a + b + c == a + (b + c)
  {
  }
}
