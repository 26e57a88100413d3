/** The HTTP exchange, reduced to values: one response per request. */
module Http {
  import opened Results

  /** A decoded response: its status code, the JSON array of its body and the
      URL of its `next` link relation, if the server sent one. */
  datatype Response<T> = Response(status: int, records: seq<T>, next: Option<string>)

  /** The statuses on which `raise_for_status` raises: client errors 4xx and
      server errors 5xx. */
  predicate IsErrorStatus(status: int) {
    400 <= status < 600
  }

  /** Whether the pagination loop `while url:` runs again after this response:
      the `next` link must be present and its URL non-empty. */
  predicate HasNext<T>(response: Response<T>) {
    response.next.Some? && response.next.value != ""
  }

  /** Records accumulated by a loop, and the number of requests it issued. */
  datatype Fetched<T> = Fetched(records: seq<T>, fetches: nat)
}
