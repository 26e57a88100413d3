/** The run: list the users, build the application report, then resolve and
    project every user against a cache that starts empty. The first failure
    aborts the run and no report is produced. */
module Extractor {
  import opened Results
  import opened Http
  import opened Records
  import opened Pagination
  import opened Projection
  import opened Reconciler

  /** Both reports of one run. */
  datatype Reports = Reports(appUsers: seq<AppUsers>, userRows: seq<Row>)

  /** The main block's data flow. `usersServer` is the paginated `users`
      endpoint, `reconcileUsersServer` the `users?limit=200` endpoint read
      again by the reconciler, `bulkLinks` the bulk links endpoint and
      `appLinksOf` the per-user links endpoint. */
  function RunReports(usersServer: seq<Response<User>>,
                      reconcileUsersServer: seq<Response<User>>,
                      bulkLinks: seq<string> -> Response<BulkLink>,
                      appLinksOf: string -> seq<Response<UserAppLink>>): (r: Result<Reports>)
    ensures Paginate(usersServer).Err? ==> r == Err(Paginate(usersServer).error)
    ensures Paginate(usersServer).Ok? && ExtractAppUserData(reconcileUsersServer, bulkLinks).Err? ==>
      r == Err(ExtractAppUserData(reconcileUsersServer, bulkLinks).error)
    ensures Paginate(usersServer).Ok? && ExtractAppUserData(reconcileUsersServer, bulkLinks).Ok? ==>
      var users := Paginate(usersServer).value.records;
      && (ExtractUserData(users, map[], appLinksOf).Err? ==> r == Err(ExtractUserData(users, map[], appLinksOf).error))
      && (r.Ok? <==> forall i :: 0 <= i < |users| ==> Paginate(appLinksOf(IdOf(users[i]))).Ok?)
    ensures r.Ok? ==> Paginate(usersServer).Ok? && ExtractAppUserData(reconcileUsersServer, bulkLinks).Ok?
    ensures r.Ok? ==> r.value.appUsers == ExtractAppUserData(reconcileUsersServer, bulkLinks).value
    ensures r.Ok? ==>
      var users := Paginate(usersServer).value.records;
      && |r.value.userRows| == |users|
      && (forall i :: 0 <= i < |users| ==> r.value.userRows[i] == Project(users[i], r.value.userRows[i].apps))
      && (forall i :: 0 <= i < |users| ==> ResolvesTo(IdOf(users[i]), map[], appLinksOf, r.value.userRows[i].apps))
      && (forall i, j :: 0 <= i < |users| && 0 <= j < |users| && IdOf(users[i]) == IdOf(users[j]) ==>
            r.value.userRows[i].apps == r.value.userRows[j].apps)
  {
    var users :- Paginate(usersServer);
    var appUsers :- ExtractAppUserData(reconcileUsersServer, bulkLinks);
    ExtractUserDataSucceeds(users.records, map[], appLinksOf);
    var extracted :- ExtractUserData(users.records, map[], appLinksOf);
    ExtractUserDataApps(users.records, map[], appLinksOf);
    Ok(Reports(appUsers, extracted.rows))
  }
}
