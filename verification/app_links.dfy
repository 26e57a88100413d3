/** Per-user resolution of active application labels (`get_user_apps`),
    memoized in a cache from user id to the joined label string that the
    caller owns and threads through every call. */
module AppLinks {
  import opened Results
  import opened Http
  import opened Records
  import opened Pagination
  import opened Text

  /** The application status whose links count as assigned. */
  const Active := "ACTIVE"

  /** The labels of the links whose application is active, in link order. */
  function ActiveLabels(links: seq<UserAppLink>): (labels: seq<string>)
    ensures |labels| <= |links|
    decreases |links|
  {
    if |links| == 0 then []
    else (if links[0].app.status == Active then [links[0].app.displayLabel] else [])
         + ActiveLabels(links[1..])
  }

  /** Filtering distributes over concatenation: labels from an earlier page
      come before labels from a later one. */
  lemma {:induction false} ActiveLabelsAppend(a: seq<UserAppLink>, b: seq<UserAppLink>)
    ensures ActiveLabels(a + b) == ActiveLabels(a) + ActiveLabels(b)
    decreases |a|
  {
    if |a| == 0 {
      assert a + b == b;
    } else {
      var head := if a[0].app.status == Active then [a[0].app.displayLabel] else [];
      assert (a + b)[0] == a[0];
      assert (a + b)[1..] == a[1..] + b;
      assert ActiveLabels(a + b) == head + ActiveLabels(a[1..] + b);
      ActiveLabelsAppend(a[1..], b);
      assert ActiveLabels(a) == head + ActiveLabels(a[1..]);
    }
  }

  /** A label is collected exactly when some active link carries it. */
  lemma {:induction false} ActiveLabelsMembership(links: seq<UserAppLink>, name: string)
    ensures name in ActiveLabels(links) <==>
      exists i :: 0 <= i < |links| && links[i].app.status == Active && links[i].app.displayLabel == name
    decreases |links|
  {
    if |links| > 0 {
      ActiveLabelsMembership(links[1..], name);
      if name in ActiveLabels(links[1..]) {
        var i :| 0 <= i < |links[1..]| && links[1..][i].app.status == Active && links[1..][i].app.displayLabel == name;
        assert links[i + 1] == links[1..][i];
      }
      if exists i :: 0 <= i < |links| && links[i].app.status == Active && links[i].app.displayLabel == name {
        var i :| 0 <= i < |links| && links[i].app.status == Active && links[i].app.displayLabel == name;
        if i > 0 {
          assert links[1..][i - 1] == links[i];
        }
      }
    }
  }

  /** One name per active link: the result is exactly as long as the number
      of active links. */
  function CountActive(links: seq<UserAppLink>): nat
    decreases |links|
  {
    if |links| == 0 then 0
    else (if links[0].app.status == Active then 1 else 0) + CountActive(links[1..])
  }

  lemma {:induction false} ActiveLabelsCount(links: seq<UserAppLink>)
    ensures |ActiveLabels(links)| == CountActive(links)
    decreases |links|
  {
    if |links| > 0 {
      ActiveLabelsCount(links[1..]);
    }
  }

  /** Every entry of `older` is in `newer` with the same value: a cache only
      ever gains entries. */
  predicate Extends(older: map<string, string>, newer: map<string, string>) {
    forall id :: id in older ==> id in newer && newer[id] == older[id]
  }

  /** The outcome of one resolution: the joined labels, the cache after the
      call and the number of requests issued. */
  datatype Resolved = Resolved(apps: string, cache: map<string, string>, fetches: nat)

  /** `get_user_apps`. `appLinksOf(id)` is the sequence of responses the
      per-user application-links endpoint gives for `id`. A hit returns the
      stored string without any request and leaves the cache as it was; a miss
      paginates the endpoint, stores the joined labels of the active links
      under `userId` and changes nothing else; a failed request aborts with no
      result. */
  function GetUserApps(userId: string, cache: map<string, string>,
                       appLinksOf: string -> seq<Response<UserAppLink>>): (r: Result<Resolved>)
    ensures userId in cache ==> r == Ok(Resolved(cache[userId], cache, 0))
    ensures userId !in cache ==> (r.Ok? <==> Paginate(appLinksOf(userId)).Ok?)
    ensures userId !in cache && r.Err? ==> r.error == Paginate(appLinksOf(userId)).error
    ensures r.Ok? ==> userId in r.value.cache && r.value.cache[userId] == r.value.apps
    ensures r.Ok? ==> r.value.cache.Keys == cache.Keys + {userId}
    ensures r.Ok? ==> Extends(cache, r.value.cache)
  {
    if userId in cache then Ok(Resolved(cache[userId], cache, 0))
    else
      var fetched :- Paginate(appLinksOf(userId));
      var apps := Join(Separator, ActiveLabels(fetched.records));
      Ok(Resolved(apps, cache[userId := apps], fetched.fetches))
  }

  /** On a miss the resolved string is the join of the labels of the active
      links on every page read, up to and including the first page without a
      `next` link, in server order; one request is issued per such page. */
  lemma ResolvedOnMiss(userId: string, cache: map<string, string>,
                       appLinksOf: string -> seq<Response<UserAppLink>>)
    requires userId !in cache
    ensures
      var server := appLinksOf(userId);
      var k := FirstStop(server);
      var r := GetUserApps(userId, cache, appLinksOf);
      r.Ok? ==> k < |server| && r.value.apps == Join(Separator, ActiveLabels(AllRecords(server[..k + 1])))
                && r.value.fetches == k + 1
  {
    PaginateClosedForm(appLinksOf(userId));
  }

  /** No active link resolves to the empty string. */
  lemma {:induction false} NoActiveLinksIsEmpty(links: seq<UserAppLink>)
    requires forall i :: 0 <= i < |links| ==> links[i].app.status != Active
    ensures Join(Separator, ActiveLabels(links)) == ""
    decreases |links|
  {
    if |links| > 0 {
      NoActiveLinksIsEmpty(links[1..]);
    }
  }

  /** Resolving the same user twice: the second call is a hit that returns the
      identical string, issues no request and leaves the cache unchanged. */
  lemma GetUserAppsIdempotent(userId: string, cache: map<string, string>,
                              appLinksOf: string -> seq<Response<UserAppLink>>)
    ensures
      var first := GetUserApps(userId, cache, appLinksOf);
      first.Ok? ==>
        GetUserApps(userId, first.value.cache, appLinksOf)
          == Ok(Resolved(first.value.apps, first.value.cache, 0))
  {
  }

  /** The inner loop over one page's links: appends the label of each active
      link to `appNames`, the labels collected from the earlier pages. */
  method CollectActive(appNames: seq<string>, ghost records: seq<UserAppLink>, page: seq<UserAppLink>)
    returns (r: seq<string>)
    requires appNames == ActiveLabels(records)
    ensures r == ActiveLabels(records + page)
  {
    r := appNames;
    assert records + page[..0] == records;
    for j := 0 to |page|
      invariant r == ActiveLabels(records + page[..j])
    {
      assert page[..j + 1] == page[..j] + [page[j]];
      assert records + page[..j + 1] == (records + page[..j]) + [page[j]];
      ActiveLabelsAppend(records + page[..j], [page[j]]);
      if page[j].app.status == Active {
        r := r + [page[j].app.displayLabel];
      }
    }
    assert page[..|page|] == page;
  }

  /** `get_user_apps` as written: a cache lookup, then the pagination loop with
      the active-name filter applied page by page, then the store. */
  method ResolveUserApps(userId: string, cache: map<string, string>,
                         appLinksOf: string -> seq<Response<UserAppLink>>) returns (r: Result<Resolved>)
    ensures r == GetUserApps(userId, cache, appLinksOf)
  {
    if userId in cache {
      return Ok(Resolved(cache[userId], cache, 0));
    }
    var server := appLinksOf(userId);
    var appNames: seq<string> := [];
    ghost var records: seq<UserAppLink> := [];
    var fetches: nat := 0;
    var more := true;
    assert server[0..] == server;
    PrependNothing(Paginate(server));
    while more
      invariant fetches <= |server|
      invariant appNames == ActiveLabels(records)
      invariant more ==> Paginate(server) == Prepend(records, fetches, Paginate(server[fetches..]))
      invariant !more ==> Paginate(server) == Ok(Fetched(records, fetches))
      decreases |server| - fetches
    {
      if fetches == |server| {
        return Err(ServerExhausted);
      }
      var response := server[fetches];
      assert server[fetches..][1..] == server[fetches + 1..];
      fetches := fetches + 1;
      if IsErrorStatus(response.status) {
        return Err(HttpError(response.status));
      }
      var page := response.records;
      appNames := CollectActive(appNames, records, page);
      if HasNext(response) {
        PrependPrepend(records, fetches - 1, page, 1, Paginate(server[fetches..]));
      }
      records := records + page;
      more := HasNext(response);
    }
    var apps := Join(Separator, appNames);
    r := Ok(Resolved(apps, cache[userId := apps], fetches));
  }
}
