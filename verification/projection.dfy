/** The user report: one flat row per user record (`extract_user_data`), each
    carrying the user's resolved application labels. */
module Projection {
  import opened Results
  import opened Http
  import opened Records
  import opened Pagination
  import opened Text
  import opened AppLinks

  /** The value written for an absent field. */
  const Missing := "N/A"

  /** A row of the user report. */
  datatype Row = Row(id: string, username: string, email: string, fullName: string, apps: string)

  /** `user.get('id', 'N/A')`. */
  function IdOf(u: User): string {
    u.id.GetOr(Missing)
  }

  /** Whether the user has a profile that holds `key`. */
  predicate HasProfileKey(u: User, key: string) {
    u.profile.Some? && key in u.profile.value
  }

  /** `user.get('profile', {}).get(key, 'N/A')`. */
  function ProfileGet(u: User, key: string): string {
    if HasProfileKey(u, key) then u.profile.value[key] else Missing
  }

  /** The row for `u` with resolved applications `apps`: each field is the
      record's value when present and the sentinel otherwise, and the full name
      is the first name, one space, and the last name, defaulted separately. */
  function Project(u: User, apps: string): (row: Row)
    ensures u.id.Some? ==> row.id == u.id.value
    ensures u.id.None? ==> row.id == Missing
    ensures HasProfileKey(u, "login") ==> row.username == u.profile.value["login"]
    ensures !HasProfileKey(u, "login") ==> row.username == Missing
    ensures HasProfileKey(u, "email") ==> row.email == u.profile.value["email"]
    ensures !HasProfileKey(u, "email") ==> row.email == Missing
    ensures row.fullName == ProfileGet(u, "firstName") + " " + ProfileGet(u, "lastName")
    ensures row.apps == apps
  {
    Row(IdOf(u), ProfileGet(u, "login"), ProfileGet(u, "email"),
        ProfileGet(u, "firstName") + " " + ProfileGet(u, "lastName"), apps)
  }

  /** A user with neither first nor last name gets the full name `N/A N/A`. */
  lemma FullNameBothMissing(u: User, apps: string)
    requires !HasProfileKey(u, "firstName") && !HasProfileKey(u, "lastName")
    ensures Project(u, apps).fullName == "N/A N/A"
  {
  }

  /** Splits `s` at its first space: the text before it and the text after it
      (all of `s` and the empty string when there is none). */
  function SplitAtSpace(s: string): (string, string)
    decreases |s|
  {
    if |s| == 0 then ("", "")
    else if s[0] == ' ' then ("", s[1..])
    else
      var (before, after) := SplitAtSpace(s[1..]);
      ([s[0]] + before, after)
  }

  /** The full name round-trips: when the first name holds no space, splitting
      the full name at its first space gives back the first and the last name. */
  lemma {:induction false} SplitFullName(first: string, last: string)
    requires forall i :: 0 <= i < |first| ==> first[i] != ' '
    ensures SplitAtSpace(first + " " + last) == (first, last)
    decreases |first|
  {
    if |first| == 0 {
      assert first + " " + last == [' '] + last;
    } else {
      assert (first + " " + last)[1..] == first[1..] + " " + last;
      SplitFullName(first[1..], last);
      assert first == [first[0]] + first[1..];
    }
  }

  /** The report rows and the cache after every user has been resolved. */
  datatype Extracted = Extracted(rows: seq<Row>, cache: map<string, string>)

  /** `extract_user_data`: resolve the applications of each user in input
      order, threading the cache through the calls, and project one row per
      user. A failed resolution aborts with no rows. */
  function ExtractUserData(users: seq<User>, cache: map<string, string>,
                           appLinksOf: string -> seq<Response<UserAppLink>>): (r: Result<Extracted>)
    ensures r.Ok? ==> |r.value.rows| == |users|
    ensures r.Ok? ==> forall i :: 0 <= i < |users| ==> r.value.rows[i] == Project(users[i], r.value.rows[i].apps)
    ensures r.Ok? ==> forall i :: 0 <= i < |users| ==>
      IdOf(users[i]) in r.value.cache && r.value.cache[IdOf(users[i])] == r.value.rows[i].apps
    ensures r.Ok? ==> Extends(cache, r.value.cache)
    decreases |users|
  {
    if |users| == 0 then Ok(Extracted([], cache))
    else
      var resolved :- GetUserApps(IdOf(users[0]), cache, appLinksOf);
      var rest :- ExtractUserData(users[1..], resolved.cache, appLinksOf);
      Ok(Extracted([Project(users[0], resolved.apps)] + rest.rows, rest.cache))
  }

  /** The cache gains exactly the users' ids: one entry per distinct id, and
      no other key. */
  lemma {:induction false} ExtractUserDataKeys(users: seq<User>, cache: map<string, string>,
                                               appLinksOf: string -> seq<Response<UserAppLink>>)
    ensures ExtractUserData(users, cache, appLinksOf).Ok? ==>
      ExtractUserData(users, cache, appLinksOf).value.cache.Keys
        == cache.Keys + (set i | 0 <= i < |users| :: IdOf(users[i]))
    decreases |users|
  {
    if |users| > 0 && ExtractUserData(users, cache, appLinksOf).Ok? {
      var resolved := GetUserApps(IdOf(users[0]), cache, appLinksOf).value;
      var rest := ExtractUserData(users[1..], resolved.cache, appLinksOf);
      assert ExtractUserData(users, cache, appLinksOf).value.cache == rest.value.cache;
      ExtractUserDataKeys(users[1..], resolved.cache, appLinksOf);
      IdSetCons(users);
    }
  }

  lemma IdSetCons(users: seq<User>)
    requires |users| > 0
    ensures (set i | 0 <= i < |users| :: IdOf(users[i]))
            == {IdOf(users[0])} + (set i | 0 <= i < |users[1..]| :: IdOf(users[1..][i]))
  {
  }

  /** A run in which every user's id is already cached issues no request and
      cannot fail. */
  lemma {:induction false} ExtractUserDataAllCached(users: seq<User>, cache: map<string, string>,
                                                    appLinksOf: string -> seq<Response<UserAppLink>>)
    requires forall i :: 0 <= i < |users| ==> IdOf(users[i]) in cache
    ensures ExtractUserData(users, cache, appLinksOf).Ok?
    ensures ExtractUserData(users, cache, appLinksOf).value.cache == cache
    decreases |users|
  {
    if |users| > 0 {
      assert IdOf(users[0]) in cache;
      assert forall i :: 0 <= i < |users[1..]| ==> IdOf(users[1..][i]) == IdOf(users[i + 1]);
      ExtractUserDataAllCached(users[1..], cache, appLinksOf);
    }
  }

  /** The run fails only when resolving some user's id fails: it succeeds
      exactly when the application-links endpoint of every user whose id is
      not cached yet paginates without error. */
  lemma {:induction false} ExtractUserDataSucceeds(users: seq<User>, cache: map<string, string>,
                                                   appLinksOf: string -> seq<Response<UserAppLink>>)
    ensures ExtractUserData(users, cache, appLinksOf).Ok? <==>
      forall i :: 0 <= i < |users| && IdOf(users[i]) !in cache ==> Paginate(appLinksOf(IdOf(users[i]))).Ok?
    decreases |users|
  {
    if |users| > 0 {
      var id := IdOf(users[0]);
      var first := GetUserApps(id, cache, appLinksOf);
      if first.Ok? {
        var next := first.value.cache;
        ExtractUserDataSucceeds(users[1..], next, appLinksOf);
        assert forall i :: 0 < i < |users| ==> users[1..][i - 1] == users[i];
        assert forall x :: x in next <==> x in cache || x == id;
      }
    }
  }

  /** `apps` is what resolving `id` against `cache` yields: the cached string
      on a hit, and on a miss the `", "` join of the labels of the active
      links on the pages of the id's endpoint, in server order. */
  predicate ResolvesTo(id: string, cache: map<string, string>,
                       appLinksOf: string -> seq<Response<UserAppLink>>, apps: string)
  {
    if id in cache then apps == cache[id]
    else Paginate(appLinksOf(id)).Ok? && apps == Join(Separator, ActiveLabels(Paginate(appLinksOf(id)).value.records))
  }

  /** Resolving one id does not change what any id resolves to. */
  lemma ResolvesToKept(id: string, other: string, cache: map<string, string>,
                       appLinksOf: string -> seq<Response<UserAppLink>>, apps: string)
    requires GetUserApps(id, cache, appLinksOf).Ok?
    requires ResolvesTo(other, GetUserApps(id, cache, appLinksOf).value.cache, appLinksOf, apps)
    ensures ResolvesTo(other, cache, appLinksOf, apps)
  {
  }

  /** Each row's apps are what its id resolves to against the cache the run
      started with: a new id's string comes from its own endpoint. */
  lemma {:induction false} ExtractUserDataApps(users: seq<User>, cache: map<string, string>,
                                               appLinksOf: string -> seq<Response<UserAppLink>>)
    ensures ExtractUserData(users, cache, appLinksOf).Ok? ==> forall i :: 0 <= i < |users| ==>
      ResolvesTo(IdOf(users[i]), cache, appLinksOf, ExtractUserData(users, cache, appLinksOf).value.rows[i].apps)
    decreases |users|
  {
    if |users| > 0 && ExtractUserData(users, cache, appLinksOf).Ok? {
      var id := IdOf(users[0]);
      var first := GetUserApps(id, cache, appLinksOf).value;
      var rest := ExtractUserData(users[1..], first.cache, appLinksOf).value;
      var rows := ExtractUserData(users, cache, appLinksOf).value.rows;
      assert rows == [Project(users[0], first.apps)] + rest.rows;
      assert ResolvesTo(id, cache, appLinksOf, rows[0].apps);
      ExtractUserDataApps(users[1..], first.cache, appLinksOf);
      forall i | 0 < i < |users|
        ensures ResolvesTo(IdOf(users[i]), cache, appLinksOf, rows[i].apps)
      {
        assert users[1..][i - 1] == users[i];
        assert rows[i] == rest.rows[i - 1];
        ResolvesToKept(id, IdOf(users[i]), cache, appLinksOf, rows[i].apps);
      }
    }
  }

  /** A failed run fails with the error of the first user whose id is not
      cached and whose endpoint does not paginate: every earlier uncached id
      resolved. */
  lemma {:induction false} ExtractUserDataError(users: seq<User>, cache: map<string, string>,
                                                appLinksOf: string -> seq<Response<UserAppLink>>)
    requires ExtractUserData(users, cache, appLinksOf).Err?
    ensures exists i :: (
      && 0 <= i < |users| && IdOf(users[i]) !in cache
      && Paginate(appLinksOf(IdOf(users[i]))).Err?
      && ExtractUserData(users, cache, appLinksOf).error == Paginate(appLinksOf(IdOf(users[i]))).error
      && (forall j :: 0 <= j < i && IdOf(users[j]) !in cache ==> Paginate(appLinksOf(IdOf(users[j]))).Ok?))
    decreases |users|
  {
    var id := IdOf(users[0]);
    var first := GetUserApps(id, cache, appLinksOf);
    if first.Err? {
      assert id !in cache;
      assert ExtractUserData(users, cache, appLinksOf).error == Paginate(appLinksOf(id)).error;
    } else {
      var next := first.value.cache;
      assert ExtractUserData(users, cache, appLinksOf).error == ExtractUserData(users[1..], next, appLinksOf).error;
      ExtractUserDataError(users[1..], next, appLinksOf);
      var k :| (
        && 0 <= k < |users[1..]| && IdOf(users[1..][k]) !in next
        && Paginate(appLinksOf(IdOf(users[1..][k]))).Err?
        && ExtractUserData(users[1..], next, appLinksOf).error == Paginate(appLinksOf(IdOf(users[1..][k]))).error
        && (forall j :: 0 <= j < k && IdOf(users[1..][j]) !in next ==> Paginate(appLinksOf(IdOf(users[1..][j]))).Ok?));
      assert users[1..][k] == users[k + 1];
      forall j | 0 <= j < k + 1 && IdOf(users[j]) !in cache
        ensures Paginate(appLinksOf(IdOf(users[j]))).Ok?
      {
        if j > 0 && IdOf(users[j]) != id {
          assert users[1..][j - 1] == users[j];
        }
      }
    }
  }
}
