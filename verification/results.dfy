/** Failure-compatible wrappers used by every component: an optional JSON
    value and the fail-fast result of a fetch. */
module Results {

  /** A JSON field that may be absent from a record. */
  datatype Option<+T> = None | Some(value: T) {

    /** The value, or `default` when absent (Python's `dict.get(key, default)`). */
    function GetOr(default: T): T {
      match this
      case Some(v) => v
      case None => default
    }
  }

  /** Why a run stops. Every failure aborts the whole computation; no
      partial result is ever returned alongside one. In particular a failed
      `extract_user_data` returns no cache, although the source has by then
      already stored the entries of the earlier users' new ids in the
      caller's dict. */
  datatype Failure =
    | HttpError(status: int)   // `raise_for_status` on a 4xx or 5xx response
    | ServerExhausted          // a request was issued after the modelled server ran out of responses
    | MissingKey(key: string)  // a subscript `record[key]` on a record without that key

  datatype Result<+T> = Ok(value: T) | Err(error: Failure) {

    predicate IsFailure() {
      Err?
    }

    function PropagateFailure<U>(): Result<U>
      requires Err?
    {
      Err(error)
    }

    function Extract(): T
      requires Ok?
    {
      value
    }
  }
}
