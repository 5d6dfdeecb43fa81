/** Optional values and results with an error message, used wherever the
    modelled code either produces a value or fails with an exception. */
module Base {

  datatype Option<+T> = None | Some(value: T) {
    /** The value, or `default` when there is none (Python's `x if x is not None else default`). */
    function GetOr(default: T): T {
      match this
      case Some(v) => v
      case None => default
    }
  }

  /** A computation that either succeeds or raises an exception whose
      `str(e)` is `error`. */
  datatype Result<+T> = Ok(value: T) | Err(error: string)

  /** Concatenation regroups freely. */
  lemma AppendAssoc<T>(x: seq<T>, y: seq<T>, z: seq<T>)
    ensures x + (y + z) == (x + y) + z
  {
  }
}
