/** The application report (`extract_app_user_data`): list every user, query
    the bulk links endpoint in batches of user ids, group the links by
    application name, and sort each application's user logins. */
module Reconciler {
  import opened Results
  import opened Http
  import opened Records
  import opened Pagination
  import opened Text

  /** Number of user ids per bulk request. */
  const BatchSize := 50

  /** The concatenation of `parts`, in order. */
  function Flatten<T>(parts: seq<seq<T>>): seq<T>
    decreases |parts|
  {
    if |parts| == 0 then [] else parts[0] + Flatten(parts[1..])
  }

  /** `[ids[i:i+50] for i in range(0, len(ids), 50)]`: every batch but the
      last holds exactly `BatchSize` ids and the last holds between one and
      `BatchSize`; together they hold exactly `|ids|` ids, so there are
      `ceil(|ids| / BatchSize)` batches and none for no ids. */
  function Batches<T>(ids: seq<T>): (bs: seq<seq<T>>)
    ensures forall i :: 0 <= i < |bs| - 1 ==> |bs[i]| == BatchSize
    ensures |bs| > 0 ==> 1 <= |bs[|bs| - 1]| <= BatchSize
    ensures (|bs| - 1) * BatchSize < |ids| <= |bs| * BatchSize
    decreases |ids|
  {
    if |ids| == 0 then []
    else if |ids| <= BatchSize then [ids]
    else [ids[..BatchSize]] + Batches(ids[BatchSize..])
  }

  /** The batches concatenate back to the ids: nothing lost, nothing reordered. */
  lemma {:induction false} BatchesFlatten<T>(ids: seq<T>)
    ensures Flatten(Batches(ids)) == ids
    decreases |ids|
  {
    if |ids| > BatchSize {
      var tail := ids[BatchSize..];
      BatchesFlatten(tail);
      assert Batches(ids)[1..] == Batches(tail);
      assert ids == ids[..BatchSize] + tail;
    } else if |ids| > 0 {
      assert Flatten(Batches(ids)) == ids + Flatten([]);
    }
  }

  /** There are `ceil(|ids| / BatchSize)` batches: none for no ids. */
  lemma BatchCount<T>(ids: seq<T>)
    ensures |Batches(ids)| == (|ids| + BatchSize - 1) / BatchSize
  {
  }

  /** Batch `i` is the slice `ids[50 * i : 50 * i + 50]`, cut at the end of `ids`. */
  lemma {:induction false} BatchIsSlice<T>(ids: seq<T>, i: nat)
    requires i < |Batches(ids)|
    ensures BatchSize * i < |ids|
    ensures Batches(ids)[i] ==
      ids[BatchSize * i .. if BatchSize * i + BatchSize <= |ids| then BatchSize * i + BatchSize else |ids|]
    decreases i
  {
    if i > 0 {
      var tail := ids[BatchSize..];
      assert |ids| > BatchSize;
      assert Batches(ids)[i] == Batches(tail)[i - 1];
      BatchIsSlice(tail, i - 1);
      assert BatchSize * i == BatchSize * (i - 1) + BatchSize by {
        assert BatchSize == 50;
      }
    }
  }

  /** `[user['id'] for user in all_users]`: the ids in order, or a `KeyError`
      when any user lacks one. */
  function UserIds(users: seq<User>): (r: Result<seq<string>>)
    ensures r.Ok? <==> forall i :: 0 <= i < |users| ==> users[i].id.Some?
    ensures r.Ok? ==> |r.value| == |users| && forall i :: 0 <= i < |users| ==> r.value[i] == users[i].id.value
    ensures r.Err? ==> r.error == MissingKey("id")
    decreases |users|
  {
    if |users| == 0 then Ok([])
    else if users[0].id.None? then Err(MissingKey("id"))
    else
      var rest :- UserIds(users[1..]);
      Ok([users[0].id.value] + rest)
  }

  /** One application's entry in the index: its name and its user logins. */
  datatype Group = Group(app: string, logins: seq<string>)

  /** The application names of `links`, in order, repeats included. */
  function AppNames(links: seq<BulkLink>): (names: seq<string>)
    ensures |names| == |links|
    ensures forall i :: 0 <= i < |links| ==> names[i] == links[i].app.name
    decreases |links|
  {
    if |links| == 0 then [] else AppNames(links[..|links| - 1]) + [links[|links| - 1].app.name]
  }

  /** The logins of the links to application `app`, in link order. */
  function LoginsFor(links: seq<BulkLink>, app: string): seq<string>
    decreases |links|
  {
    if |links| == 0 then []
    else
      var last := links[|links| - 1];
      LoginsFor(links[..|links| - 1], app) + (if last.app.name == app then [last.login] else [])
  }

  predicate Distinct(xs: seq<string>) {
    forall i, j :: 0 <= i < j < |xs| ==> xs[i] != xs[j]
  }

  /** Position of the first occurrence of `x` in `xs`, or `|xs|` when absent. */
  function IndexOf(xs: seq<string>, x: string): (k: nat)
    ensures k <= |xs|
    ensures x in xs <==> k < |xs|
    ensures k < |xs| ==> xs[k] == x
    ensures forall i :: 0 <= i < k ==> xs[i] != x
    decreases |xs|
  {
    if |xs| == 0 || xs[0] == x then 0 else 1 + IndexOf(xs[1..], x)
  }

  lemma {:induction false} IndexOfSnoc(xs: seq<string>, y: string, x: string)
    requires x in xs + [y]
    ensures x in xs ==> IndexOf(xs + [y], x) == IndexOf(xs, x)
    ensures x !in xs ==> IndexOf(xs + [y], x) == |xs|
    decreases |xs|
  {
    if |xs| > 0 && xs[0] != x {
      assert (xs + [y])[1..] == xs[1..] + [y];
      IndexOfSnoc(xs[1..], y, x);
    }
  }

  lemma {:induction false} LoginsForAbsent(links: seq<BulkLink>, app: string)
    requires app !in AppNames(links)
    ensures LoginsFor(links, app) == []
    decreases |links|
  {
    if |links| > 0 {
      var prefix := links[..|links| - 1];
      assert forall x :: x in AppNames(prefix) ==> x in AppNames(links) by {
        assert AppNames(links) == AppNames(prefix) + [links[|links| - 1].app.name];
      }
      LoginsForAbsent(prefix, app);
    }
  }

  /** The distinct elements of `xs`, each at its first appearance. */
  function Dedup(xs: seq<string>): seq<string>
    decreases |xs|
  {
    if |xs| == 0 then []
    else
      var d := Dedup(xs[..|xs| - 1]);
      if xs[|xs| - 1] in d then d else d + [xs[|xs| - 1]]
  }

  lemma {:induction false} DedupMembership(xs: seq<string>)
    ensures forall x :: x in Dedup(xs) <==> x in xs
    decreases |xs|
  {
    if |xs| > 0 {
      var prefix := xs[..|xs| - 1];
      DedupMembership(prefix);
      assert xs == prefix + [xs[|xs| - 1]];
    }
  }

  /** `Dedup` keeps one copy of each element, in order of first appearance. */
  lemma {:induction false} DedupFirstAppearance(xs: seq<string>)
    ensures Distinct(Dedup(xs))
    ensures forall x :: x in Dedup(xs) <==> x in xs
    ensures forall i, j :: 0 <= i < j < |Dedup(xs)| ==> IndexOf(xs, Dedup(xs)[i]) < IndexOf(xs, Dedup(xs)[j])
    decreases |xs|
  {
    DedupMembership(xs);
    if |xs| > 0 {
      var prefix := xs[..|xs| - 1];
      var y := xs[|xs| - 1];
      var d := Dedup(prefix);
      DedupFirstAppearance(prefix);
      assert xs == prefix + [y];
      forall i | 0 <= i < |Dedup(xs)|
        ensures IndexOf(xs, Dedup(xs)[i]) == if i < |d| then IndexOf(prefix, d[i]) else |prefix|
      {
        IndexOfSnoc(prefix, y, Dedup(xs)[i]);
      }
    }
  }

  /** The dict `app_user_map`: its keys in insertion order, and the logins
      appended under each key. */
  datatype AppUserMap = AppUserMap(keys: seq<string>, logins: map<string, seq<string>>)

  /** The dict's invariant: the key order lists exactly the keys of the map. */
  ghost predicate Valid(m: AppUserMap) {
    forall x :: x in m.keys <==> x in m.logins
  }

  /** One step of the grouping loop: append the link's login under its
      application, inserting the application as the last key when it is new.
      No other key's logins change. */
  function AddLink(m: AppUserMap, link: BulkLink): (r: AppUserMap)
    requires Valid(m)
    ensures Valid(r)
    ensures link.app.name in m.logins ==> r.keys == m.keys
    ensures link.app.name !in m.logins ==> r.keys == m.keys + [link.app.name]
    ensures forall x :: x in r.logins ==>
      r.logins[x] == (if x in m.logins then m.logins[x] else [])
                     + (if x == link.app.name then [link.login] else [])
  {
    var name := link.app.name;
    if name in m.logins then AppUserMap(m.keys, m.logins[name := m.logins[name] + [link.login]])
    else AppUserMap(m.keys + [name], m.logins[name := [link.login]])
  }

  /** The grouping loop over all links: the keys are the links' application
      names without repeats, in order of first appearance, and each key holds
      the logins of exactly the links to that application, in link order. */
  function GroupByApp(links: seq<BulkLink>): (m: AppUserMap)
    ensures Valid(m)
    ensures m.keys == Dedup(AppNames(links))
    ensures forall x :: x in m.logins ==> m.logins[x] == LoginsFor(links, x)
    decreases |links|
  {
    if |links| == 0 then AppUserMap([], map[])
    else
      var before := GroupByApp(links[..|links| - 1]);
      GroupByAppStep(links, before);
      AddLink(before, links[|links| - 1])
  }

  lemma {:induction false} GroupByAppStep(links: seq<BulkLink>, before: AppUserMap)
    requires |links| > 0
    requires Valid(before)
    requires before.keys == Dedup(AppNames(links[..|links| - 1]))
    requires forall x :: x in before.logins ==> before.logins[x] == LoginsFor(links[..|links| - 1], x)
    ensures
      var m := AddLink(before, links[|links| - 1]);
      && m.keys == Dedup(AppNames(links))
      && (forall x :: x in m.logins ==> m.logins[x] == LoginsFor(links, x))
  {
    var prefix, link := links[..|links| - 1], links[|links| - 1];
    assert links == prefix + [link];
    var names := AppNames(links);
    assert names == AppNames(prefix) + [link.app.name];
    assert names[..|names| - 1] == AppNames(prefix);
    if link.app.name !in before.logins {
      DedupMembership(AppNames(prefix));
      LoginsForAbsent(prefix, link.app.name);
    }
  }

  /** The application index built from the bulk links: the grouping dict's
      keys in order, each with its logins sorted ascending
      (`user_names.sort()`) of exactly the links to that application, so a
      sorted permutation of them with duplicates kept. */
  function AppUserIndex(links: seq<BulkLink>): (index: seq<Group>)
    ensures |index| == |Dedup(AppNames(links))|
    ensures forall i :: 0 <= i < |index| ==> index[i].app == Dedup(AppNames(links))[i]
    ensures forall i :: 0 <= i < |index| ==> index[i].logins == Sort(LoginsFor(links, index[i].app))
  {
    var m := GroupByApp(links);
    seq(|m.keys|, i requires 0 <= i < |m.keys| => Group(m.keys[i], Sort(m.logins[m.keys[i]])))
  }

  /** The index has one entry per distinct application name among the links,
      and the entries appear in order of each name's first link. */
  lemma AppUserIndexKeys(links: seq<BulkLink>)
    ensures var index := AppUserIndex(links);
      && (forall i, j :: 0 <= i < j < |index| ==> index[i].app != index[j].app)
      && (forall i :: 0 <= i < |index| ==> index[i].app in AppNames(links))
      && (forall x :: x in AppNames(links) ==> exists i :: 0 <= i < |index| && index[i].app == x)
      && (forall i, j :: 0 <= i < j < |index| ==>
            IndexOf(AppNames(links), index[i].app) < IndexOf(AppNames(links), index[j].app))
  {
    DedupKeys(AppUserIndex(links), AppNames(links));
  }

  /** Any list of groups keyed, entry by entry, by the first appearances of
      `names` inherits their distinctness, coverage and order. */
  lemma DedupKeys(index: seq<Group>, names: seq<string>)
    requires |index| == |Dedup(names)|
    requires forall i :: 0 <= i < |index| ==> index[i].app == Dedup(names)[i]
    ensures forall i, j :: 0 <= i < j < |index| ==> index[i].app != index[j].app
    ensures forall i :: 0 <= i < |index| ==> index[i].app in names
    ensures forall x :: x in names ==> exists i :: 0 <= i < |index| && index[i].app == x
    ensures forall i, j :: 0 <= i < j < |index| ==> IndexOf(names, index[i].app) < IndexOf(names, index[j].app)
  {
    var keys := Dedup(names);
    DedupFirstAppearance(names);
    forall x | x in names ensures exists i :: 0 <= i < |index| && index[i].app == x {
      var i :| 0 <= i < |keys| && keys[i] == x;
      assert index[i].app == x;
    }
  }

  /** A row of the application report: the application name and its logins
      joined with ", ". */
  datatype AppUsers = AppUsers(app: string, users: string)

  /** The responses of the bulk endpoint, one per batch, in batch order. */
  function BulkResponses(batches: seq<seq<string>>, bulkLinks: seq<string> -> Response<BulkLink>): seq<Response<BulkLink>>
  {
    seq(|batches|, i requires 0 <= i < |batches| => bulkLinks(batches[i]))
  }

  /** `extract_app_user_data`. `usersServer` is the paginated `users?limit=200`
      endpoint and `bulkLinks(batch)` the single response of the bulk links
      endpoint for the ids of `batch`. Fails fast: with the listing's error,
      then with a `KeyError` on `id` when some user has none, then with the
      status of the first failing batch. Otherwise issues one bulk request per
      batch and reports one row per distinct application, in first-appearance
      order, with its sorted logins joined. */
  function ExtractAppUserData(usersServer: seq<Response<User>>,
                              bulkLinks: seq<string> -> Response<BulkLink>): (r: Result<seq<AppUsers>>)
    ensures Paginate(usersServer).Err? ==> r == Err(Paginate(usersServer).error)
    ensures Paginate(usersServer).Ok? && UserIds(Paginate(usersServer).value.records).Err? ==>
      r == Err(MissingKey("id"))
    ensures Paginate(usersServer).Ok? && UserIds(Paginate(usersServer).value.records).Ok? ==>
      var batches := Batches(UserIds(Paginate(usersServer).value.records).value);
      var e := FirstError(BulkResponses(batches, bulkLinks));
      && (e < |batches| ==> r == Err(HttpError(bulkLinks(batches[e]).status)))
      && ((forall i :: 0 <= i < |batches| ==> !IsErrorStatus(bulkLinks(batches[i]).status)) ==> r.Ok?)
    ensures r.Ok? ==>
      && Paginate(usersServer).Ok?
      && UserIds(Paginate(usersServer).value.records).Ok?
      && var batches := Batches(UserIds(Paginate(usersServer).value.records).value);
         var index := AppUserIndex(AllRecords(BulkResponses(batches, bulkLinks)));
         && (forall i :: 0 <= i < |batches| ==> !IsErrorStatus(bulkLinks(batches[i]).status))
         && |r.value| == |index|
         && forall i :: 0 <= i < |index| ==>
              r.value[i] == AppUsers(index[i].app, Join(Separator, index[i].logins))
  {
    var users :- Paginate(usersServer);
    var ids :- UserIds(users.records);
    var batches := Batches(ids);
    var responses := BulkResponses(batches, bulkLinks);
    assert |responses| == |batches| && forall i :: 0 <= i < |batches| ==> responses[i] == bulkLinks(batches[i]);
    var links :- FetchEach(responses);
    var index := AppUserIndex(links.records);
    Ok(seq(|index|, i requires 0 <= i < |index| => AppUsers(index[i].app, Join(Separator, index[i].logins))))
  }
}
