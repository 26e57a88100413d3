# Okta user/application data extractor — a Dafny model

`OktaUserAppDataExtractor.py` reads an Okta tenant's administrative API and
builds two reports:

- a user report with one row per user (id, login, email, full name, and the
  labels of the user's active applications);
- an application report that maps each application name to the sorted logins
  of its users.

This project models the data transformations inside its HTTP calls and proves
their properties. The model has no HTTP: a response is a value (status code,
decoded JSON array, optional `next` URL). A paginated endpoint is the finite
sequence of responses the server returns to successive requests.

Modules, one per function group of the source, plus shared definitions:

- `Results`: `Option` for absent JSON fields, and `Result` with the
  fail-fast `Failure` kinds: an HTTP error status, a `KeyError` on a missing
  key, and a server that has run out of responses.
- `Http`: responses, the `raise_for_status` rule (4xx and 5xx raise) and the
  `while url:` continuation rule. A missing `next` link or an empty URL both
  stop the loop.
- `Records`: the user, application-link and bulk-link records.
- `Pagination`: the cursor loop shared by `get_all_users`, `get_user_apps` and
  `extract_app_user_data`. It also holds the un-paginated per-batch request
  loop.
- `Text`: `", ".join`, Python's string order (lexicographic on code points),
  and an insertion sort.
- `AppLinks`: `get_user_apps`, with its cache from user id to joined labels.
- `Projection`: the row projection with `"N/A"` defaults, and
  `extract_user_data`.
- `Reconciler`: the batches of 50 ids, the grouping of bulk links by
  application name in first-appearance order, the sorted logins, and
  `extract_app_user_data`.
- `Extractor`: the data flow of the main block.
- `Examples`: worked instances of the extractor's behaviour.

Behaviour of the source that the model keeps as written:

- `raise_for_status` raises only for statuses 400 to 599, so only those
  abort; any other status, 3xx included, is read as a page.
- `extract_app_user_data` subscripts `user['id']` (line 81), so a user
  without an id raises `KeyError`, while `extract_user_data` writes `"N/A"`
  for the same user.
- `extract_app_user_data` returns a list of `(name, joined logins)` pairs in
  first-appearance order (line 101), not a mapping.

## Model

| member | source | states |
|---|---|---|
| Pagination.Paginate | OktaUserAppDataExtractor.py:17-23 | The cursor loop: a successful read issues at least one request and never more than the server has responses. |
| Pagination.PaginateClosedForm | OktaUserAppDataExtractor.py:16-24 | Pagination fails with the status of the first error response among the pages it reads. If every response links onward it never stops. Otherwise it issues exactly one request per page, up to and including the first page with no usable `next` link, and returns those pages' records concatenated in order. |
| Pagination.FetchAll | OktaUserAppDataExtractor.py:16-24 | The `while url:` loop as written (request, `raise_for_status`, append, read `next`) computes exactly the pagination result. |
| Pagination.PaginateWellFormedServer | OktaUserAppDataExtractor.py:17-23 | For a server of k successful pages that link onward except the last, the result is all k pages' records in order, after exactly k requests. |
| Pagination.PaginateIgnoresTail | OktaUserAppDataExtractor.py:17-23 | Responses after the first page without a `next` link are never requested, so they cannot change the outcome. |
| Pagination.FetchEach | OktaUserAppDataExtractor.py:84-89 | The batch loop issues one request per batch and ignores `next` links. It aborts with the first error status; otherwise it returns every body in batch order after exactly one request per batch. |
| Text.Join | OktaUserAppDataExtractor.py:48 | `sep.join(parts)` starts with the first part. |
| Text.JoinEndsWithLast | OktaUserAppDataExtractor.py:48 | `sep.join(parts)` ends with the last part. |
| Text.JoinAppend | OktaUserAppDataExtractor.py:48 | `sep.join` of two concatenated non-empty lists is the two joins with one separator between them. |
| Text.JoinLength | OktaUserAppDataExtractor.py:48 | A join's length is the parts' total length plus one separator between each two parts. |
| Text.LexLe | OktaUserAppDataExtractor.py:99 | Python's `<=` on strings, lexicographic on code points: a prefix sorts first. |
| Text.Sort | OktaUserAppDataExtractor.py:99 | `list.sort()` on logins yields an ascending list that is a permutation of its input, duplicates kept. |
| Text.SortedPermutationUnique | OktaUserAppDataExtractor.py:99 | Two ascending lists with the same elements, counted with multiplicity, are equal. So the sorted result is determined by its input alone. |
| AppLinks.ActiveLabels | OktaUserAppDataExtractor.py:42-45 | The labels of the active links, in link order, at most one per link. |
| AppLinks.ActiveLabelsAppend | OktaUserAppDataExtractor.py:38-47 | Filtering pages one after another equals filtering their concatenation. Labels from earlier pages come first, in server order. |
| AppLinks.ActiveLabelsMembership | OktaUserAppDataExtractor.py:42-45 | A label is collected if and only if some link whose application status is `ACTIVE` carries it. |
| AppLinks.ActiveLabelsCount | OktaUserAppDataExtractor.py:42-45 | Exactly one label is collected per active link. |
| AppLinks.GetUserApps | OktaUserAppDataExtractor.py:27-49 | On a hit, it returns the cached string with no request and an unchanged cache. On a miss, it succeeds exactly when pagination does and otherwise fails with pagination's own error; on success it stores the result under the user id. Every other key keeps its value, and no key except the user id is added. |
| AppLinks.ResolvedOnMiss | OktaUserAppDataExtractor.py:36-49 | On a miss, the string is the `", "` join of the labels of the active links on every page read, in server order. It costs one request per page read. |
| AppLinks.NoActiveLinksIsEmpty | OktaUserAppDataExtractor.py:44-48 | A user without active links resolves to the empty string. |
| AppLinks.GetUserAppsIdempotent | OktaUserAppDataExtractor.py:28-29 | Resolving the same id again is a hit: the identical string, no request, and an unchanged cache. |
| AppLinks.CollectActive | OktaUserAppDataExtractor.py:42-45 | The loop over one page's links extends the labels collected so far to exactly the active labels of all links read, page included. |
| AppLinks.ResolveUserApps | OktaUserAppDataExtractor.py:27-49 | `get_user_apps` as written (cache lookup, paginated loop filtering page by page, join, store) computes exactly the resolution above. |
| Projection.Project | OktaUserAppDataExtractor.py:55-62 | A row carries each of `id`, `login` and `email` when present and `"N/A"` when absent. The full name is first name, one space, last name, each defaulted separately. The apps are the string given. |
| Projection.FullNameBothMissing | OktaUserAppDataExtractor.py:58-60 | A user with neither first nor last name gets the full name `N/A N/A`. |
| Projection.SplitFullName | OktaUserAppDataExtractor.py:60 | When the first name has no space, splitting the full name at its first space gives back the first and the last name. |
| Projection.ExtractUserData | OktaUserAppDataExtractor.py:52-63 | There is exactly one row per user, in input order, each the projection of its user. Each row's apps equal the final cache entry for that row's id, so users sharing an id share the apps string. Every earlier cache entry is kept. |
| Projection.ExtractUserDataSucceeds | OktaUserAppDataExtractor.py:54-63 | The run succeeds if and only if the endpoint of every user whose id is not cached yet paginates without error. |
| Projection.ExtractUserDataApps | OktaUserAppDataExtractor.py:27-63 | Each row's apps are its id's cached string when the id was cached before the run. Otherwise they are the `", "` join of the labels of the active links on that id's pages, in server order. |
| Projection.ExtractUserDataError | OktaUserAppDataExtractor.py:36-63 | A failed run fails with the error of the first user whose id is not cached and whose endpoint fails to paginate. Every earlier user's uncached id paginated. |
| Projection.ExtractUserDataKeys | OktaUserAppDataExtractor.py:27-63 | After a successful run the cache's keys are exactly its earlier keys plus the ids of the users, one entry per distinct id. |
| Projection.ExtractUserDataAllCached | OktaUserAppDataExtractor.py:28-29 | When every user's id is already cached, the run cannot fail and leaves the cache unchanged. |
| Reconciler.Batches | OktaUserAppDataExtractor.py:83-85 | Every batch but the last has 50 ids, and the last has 1 to 50. Together the batches hold the number of ids given, within one batch. |
| Reconciler.BatchesFlatten | OktaUserAppDataExtractor.py:83-85 | The batches concatenate back to the ids: none is lost, repeated or reordered. |
| Reconciler.BatchCount | OktaUserAppDataExtractor.py:83-84 | There are ceil(n/50) batches for n ids, and none when n is 0. |
| Reconciler.BatchIsSlice | OktaUserAppDataExtractor.py:84-85 | Batch i is the slice `ids[50i : 50i+50]`, cut at the end of the ids. |
| Reconciler.UserIds | OktaUserAppDataExtractor.py:81 | The ids are listed in user order. The result is a `KeyError` on `id` exactly when some user lacks one. |
| Reconciler.DedupFirstAppearance | OktaUserAppDataExtractor.py:90-96 | The order in which a dict first receives keys lists each name once, covers exactly the names given, and orders them by first appearance. |
| Reconciler.AddLink | OktaUserAppDataExtractor.py:92-96 | One grouping step appends the login to its application's list and changes no other list. It adds the application as the last key only when it is not yet a key. The key order keeps listing exactly the dict's keys. |
| Reconciler.GroupByApp | OktaUserAppDataExtractor.py:90-96 | The keys are the application names of the links without repeats, in order of first appearance. Each key holds the logins of exactly the links to that application, in link order. |
| Reconciler.AppUserIndex | OktaUserAppDataExtractor.py:90-100 | There is one entry per key of the grouping, in key order. Each entry's logins are the ascending sort of the logins of exactly that application's links, duplicates kept. |
| Reconciler.AppUserIndexKeys | OktaUserAppDataExtractor.py:90-99 | The index's names are distinct. Every name is the name of some link, every link's name has an entry, and entries follow the order of each name's first link. |
| Reconciler.ExtractAppUserData | OktaUserAppDataExtractor.py:66-101 | A failed user listing aborts with its error. Next, a user without an id aborts with `KeyError` on `id`. Next, the first batch with a 4xx or 5xx status aborts with that status. If none of these happens, the run succeeds. Each row is then an index entry's name with its sorted logins joined by `", "`, in index order. |
| Extractor.RunReports | OktaUserAppDataExtractor.py:109-112 | The first failure aborts the run: the user listing, then the application report, then the user report with its own error. Once the first two succeed, the run succeeds if and only if every listed user's links endpoint paginates. There is then one user row per listed user, in order. Each row's apps are the joined active labels from that user's endpoint, so users that share an id get the same apps string. |
| Examples.BatchesOf120 | OktaUserAppDataExtractor.py:83-85 | 120 ids make three batches, of 50, 50 and 20. |
| Examples.SortThreeLogins | OktaUserAppDataExtractor.py:99 | `zoe, amy, bob` sort to `amy, bob, zoe`. |
| Examples.ActiveOnly | OktaUserAppDataExtractor.py:42-48 | Statuses ACTIVE, SUSPENDED, ACTIVE resolve to the two active labels, in order, joined by `", "`. |

## Left out

- HTTP transport: headers, the `SSWS` token, URL and query-string construction (including the comma-joined `userIds`), JSON decoding and `Link` header parsing. Responses are given as values.
- Projection.ExtractUserData: does not model the cache contents left behind by a failed run. The source's `get_user_apps` (line 48) writes into the caller's `app_links` dict during the loop of lines 54-62. So when user k's resolution raises, the dict already holds the entries of the new ids among users 0..k-1. The model's `Err` carries no cache, so those entries are dropped. The only caller (line 112) lets the exception end the process, so no later code sees that dict.
- Responses are indexed by request order, not by URL. The model does not check that the next request goes to the URL the server sent.
- A server that always links onward makes the source loop forever. The model's servers are finite. A request past the last modelled response yields `ServerExhausted`, which stands for that case.
- Failures other than an HTTP error status are not modelled: connection errors, timeouts and bodies that are not JSON arrays.
- `KeyError` on link records is not modelled. Application links and bulk links always carry `app`, `status`, `label`, `name` and the app user's `profile.login`.
- JSON `null` and non-string profile values are not modelled. For a key present with value `null`, the source's `.get` yields `None`, which the f-string renders as `None`. Profile values here are strings.
- The main block's environment variables, timing and `print` (lines 106-108 and 125-127) are left out. So is CSV writing (lines 113-124). Line 117 calls `.items()` on the list returned at line 101; this model does not cover that call.
- String order is lexicographic order on Dafny `char` code points. It matches Python's order on `str` for text without lone surrogates, which Dafny strings cannot hold.
- The bulk endpoint is read with one request per batch and its `next` links are ignored, as in the source. Paginating it is not modelled.
