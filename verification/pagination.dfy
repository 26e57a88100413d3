/** Cursor pagination: request a page, append its records, follow the `next`
    link until a response carries none. A paginated endpoint is modelled as the
    finite sequence of responses the server gives to successive requests. */
module Pagination {
  import opened Results
  import opened Http

  /** The records of `pages`, concatenated in order. */
  function AllRecords<T>(pages: seq<Response<T>>): seq<T>
  {
    if |pages| == 0 then [] else pages[0].records + AllRecords(pages[1..])
  }

  lemma {:induction false} AllRecordsSnoc<T>(pages: seq<Response<T>>, page: Response<T>)
    ensures AllRecords(pages + [page]) == AllRecords(pages) + page.records
    decreases |pages|
  {
    if |pages| == 0 {
      assert pages + [page] == [page];
    } else {
      assert (pages + [page])[1..] == pages[1..] + [page];
      AllRecordsSnoc(pages[1..], page);
    }
  }

  /** Index of the first response without a usable `next` link, or `|server|`
      when every response has one. */
  function FirstStop<T>(server: seq<Response<T>>): (k: nat)
    ensures k <= |server|
    ensures forall i :: 0 <= i < k ==> HasNext(server[i])
    ensures k < |server| ==> !HasNext(server[k])
    decreases |server|
  {
    if |server| == 0 || !HasNext(server[0]) then 0 else 1 + FirstStop(server[1..])
  }

  /** Index of the first response with an error status, or `|responses|`. */
  function FirstError<T>(responses: seq<Response<T>>): (e: nat)
    ensures e <= |responses|
    ensures forall i :: 0 <= i < e ==> !IsErrorStatus(responses[i].status)
    ensures e < |responses| ==> IsErrorStatus(responses[e].status)
    decreases |responses|
  {
    if |responses| == 0 || IsErrorStatus(responses[0].status) then 0
    else 1 + FirstError(responses[1..])
  }

  /** The pagination loop of `get_all_users`, also inlined in `get_user_apps`
      and `extract_app_user_data`: issue a request, abort on an error status,
      append the body, and follow the `next` link while there is one. */
  function Paginate<T>(server: seq<Response<T>>): (r: Result<Fetched<T>>)
    ensures r.Ok? ==> 1 <= r.value.fetches <= |server|
    decreases |server|
  {
    if |server| == 0 then Err(ServerExhausted)
    else
      var page := server[0];
      if IsErrorStatus(page.status) then Err(HttpError(page.status))
      else if !HasNext(page) then Ok(Fetched(page.records, 1))
      else Prepend(page.records, 1, Paginate(server[1..]))
  }

  /** What pagination returns, in closed form: it fails with the status of the
      first error response among the pages it reads; it reads past the end of
      a server whose every response links onward; otherwise it has issued
      exactly one request per page up to and including the first page without
      a `next` link, and returns those pages' records in order. */
  lemma {:induction false} PaginateClosedForm<T>(server: seq<Response<T>>)
    ensures
      var r, k, e := Paginate(server), FirstStop(server), FirstError(server);
      if e <= k && e < |server| then r == Err(HttpError(server[e].status))
      else if k == |server| then r == Err(ServerExhausted)
      else r == Ok(Fetched(AllRecords(server[..k + 1]), k + 1))
    decreases |server|
  {
    if |server| > 0 && !IsErrorStatus(server[0].status) {
      if !HasNext(server[0]) {
        assert server[..1] == [server[0]];
        assert AllRecords(server[..1]) == server[0].records + AllRecords(server[..1][1..]);
        assert server[..1][1..] == [];
        assert server[0].records + [] == server[0].records;
        assert FirstError(server) == 1 + FirstError(server[1..]);
      } else {
        PaginateClosedForm(server[1..]);
        var k := FirstStop(server[1..]);
        if k < |server| - 1 {
          assert server[..k + 2][1..] == server[1..][..k + 1];
        }
      }
    }
  }

  /** `records` prepended to the records of `r`, and `fetches` added to its count. */
  function Prepend<T>(records: seq<T>, fetches: nat, r: Result<Fetched<T>>): Result<Fetched<T>>
  {
    match r
    case Err(e) => Err(e)
    case Ok(f) => Ok(Fetched(records + f.records, fetches + f.fetches))
  }

  lemma PrependPrepend<T>(a: seq<T>, m: nat, b: seq<T>, n: nat, r: Result<Fetched<T>>)
    ensures Prepend(a, m, Prepend(b, n, r)) == Prepend(a + b, m + n, r)
  {
    if r.Ok? {
      assert a + (b + r.value.records) == (a + b) + r.value.records;
    }
  }

  lemma PrependNothing<T>(r: Result<Fetched<T>>)
    ensures Prepend([], 0, r) == r
  {
    if r.Ok? {
      assert [] + r.value.records == r.value.records;
    }
  }

  /** The loop as written: `while url:` issue a request, raise on an error
      status, append the body, and read the next URL. It computes `Paginate`. */
  method FetchAll<T>(server: seq<Response<T>>) returns (r: Result<Fetched<T>>)
    ensures r == Paginate(server)
  {
    var records: seq<T> := [];
    var fetches: nat := 0;
    var more := true;  // the initial URL is never empty
    assert server[0..] == server;
    PrependNothing(Paginate(server));
    while more
      invariant fetches <= |server|
      invariant more ==> Paginate(server) == Prepend(records, fetches, Paginate(server[fetches..]))
      invariant !more ==> Paginate(server) == Ok(Fetched(records, fetches))
      decreases |server| - fetches
    {
      if fetches == |server| {
        return Err(ServerExhausted);
      }
      var response := server[fetches];
      assert server[fetches..][1..] == server[fetches + 1..];
      fetches := fetches + 1;
      if IsErrorStatus(response.status) {
        return Err(HttpError(response.status));
      }
      if HasNext(response) {
        PrependPrepend(records, fetches - 1, response.records, 1, Paginate(server[fetches..]));
      }
      records := records + response.records;
      more := HasNext(response);
    }
    r := Ok(Fetched(records, fetches));
  }

  /** Sequential, un-paginated requests, one per response, as the batch loop of
      `extract_app_user_data` issues them: it aborts at the first error status,
      otherwise it issues every request and returns all bodies in order. The
      `next` links are ignored. */
  function FetchEach<T>(responses: seq<Response<T>>): (r: Result<Fetched<T>>)
    ensures
      var e := FirstError(responses);
      if e < |responses| then r == Err(HttpError(responses[e].status))
      else r == Ok(Fetched(AllRecords(responses), |responses|))
    decreases |responses|
  {
    if |responses| == 0 then Ok(Fetched([], 0))
    else if IsErrorStatus(responses[0].status) then Err(HttpError(responses[0].status))
    else
      var rest :- FetchEach(responses[1..]);
      Ok(Fetched(responses[0].records + rest.records, rest.fetches + 1))
  }

  /** A server whose `k + 1` pages succeed and link onward up to page `k` is read
      completely: all `k + 1` pages' records, in order, in `k + 1` requests. */
  lemma PaginateWellFormedServer<T>(server: seq<Response<T>>)
    requires |server| > 0
    requires forall i :: 0 <= i < |server| ==> !IsErrorStatus(server[i].status)
    requires forall i :: 0 <= i < |server| - 1 ==> HasNext(server[i])
    requires !HasNext(server[|server| - 1])
    ensures Paginate(server) == Ok(Fetched(AllRecords(server), |server|))
  {
    PaginateClosedForm(server);
    assert FirstStop(server) == |server| - 1;
    assert server[..|server|] == server;
  }

  /** Responses after the last page are never requested: they cannot change
      the outcome. */
  lemma PaginateIgnoresTail<T>(server: seq<Response<T>>, extra: seq<Response<T>>)
    requires FirstStop(server) < |server|
    ensures Paginate(server + extra) == Paginate(server)
  {
    var s := server + extra;
    var k := FirstStop(server);
    FirstStopPrefix(server, extra);
    FirstErrorPrefix(server, extra, k);
    assert s[..k + 1] == server[..k + 1];
    PaginateClosedForm(server);
    PaginateClosedForm(s);
  }

  lemma {:induction false} FirstStopPrefix<T>(server: seq<Response<T>>, extra: seq<Response<T>>)
    requires FirstStop(server) < |server|
    ensures FirstStop(server + extra) == FirstStop(server)
    decreases |server|
  {
    if HasNext(server[0]) {
      assert (server + extra)[1..] == server[1..] + extra;
      FirstStopPrefix(server[1..], extra);
    }
  }

  lemma {:induction false} FirstErrorPrefix<T>(server: seq<Response<T>>, extra: seq<Response<T>>, k: nat)
    requires k < |server|
    ensures FirstError(server + extra) <= k <==> FirstError(server) <= k
    ensures FirstError(server) <= k ==> FirstError(server + extra) == FirstError(server)
    decreases |server|
  {
    if !IsErrorStatus(server[0].status) && k > 0 {
      assert (server + extra)[1..] == server[1..] + extra;
      FirstErrorPrefix(server[1..], extra, k - 1);
    }
  }
}
