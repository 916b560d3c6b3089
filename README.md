# github-stats-counter, modelled in Dafny

This project models the logic of `main.py` in github-stats-counter. The
program tallies, for one GitHub repository and a date range, how many pull
requests and commits each contributor made and how many lines they changed.
Every HTTP response is an input value, so the model is what remains once the
network is taken away:

- `Pagination` models the paginated list fetch (`get_github_data`). It
  consumes a finite sequence of responses, each a status plus a decoded list.
  A 200 page is appended, and a page shorter than `per_page` = 100 ends the
  loop. A 403 retries the same page. Any other status ends the loop with
  what has been gathered. If the sequence runs out first, the fetch ends with
  `OutOfResponses`.
- `Items` models the JSON objects the fold reads. Each key is `Absent`,
  `Null`, or `Present(value)`. On top of that it models identity resolution,
  `get_commit_details` and the pull-request file-change total. Python's
  `d.get(k, default)` returns `default` for an absent key and `None` for a
  `null` one. Calling `.get` on that `None` raises AttributeError, modelled as
  `Err(NullObject(..))`. A pull request without a `url` raises TypeError at
  `None + '/files'`, modelled as `Err(NoPullUrl)`. Python's `None` can become
  a dictionary key (a `null` login or author name): that is `NoneKey`.
- `Aggregation` models `get_user_stats_per_endpoint`. `Entries` gives what
  each item contributes, or the first exception. `Tally` is the dictionary
  built from those contributions. `CountItem` is the body of the `for` loop
  and `GetUserStatsPerEndpoint` is the loop itself, both proved against
  `Tally`. The per-item requests come from an `Api` value: the PR-files
  response for a url, and the commit detail for the sha text in its url
  (`f'{None}'` reads "None").
- `Report` models `main`'s merge (two loops over the dictionaries, proved
  against the union-of-keys `Merge`). It also models the ordering: a stable
  insertion sort on (prs, commits, lines), descending, as
  `sorted(..., reverse=True)` is.
- `RepoUrl` models `owner, repo = url.strip().split('/')[-2:]`. `strip`
  uses Python's whitespace set, `split` keeps empty pieces, and fewer than
  two pieces raise ValueError.

The model follows the code where it differs from what one might expect of it:

- The pulls branch falls back to "unknown" only when the `login` key is
  absent. An empty or `null` login is kept as the key. The "falsy login
  falls back" rule holds only for commits.
- A `null` value is read as an object only on the paths that reach it, and
  there it aborts the run with an exception instead of being treated as zero
  or as a fallback. A `null` `user` (pulls) or `author` (commits) always
  aborts. A `null` `commit` or `commit.author` aborts only when the login is
  falsy and the name fallback is read. A `null` `stats` aborts only on a 200
  commit-detail response.
- In the commits branch the source resolves the identity twice (main.py
  lines 64-66 and 83-86) with the same expression. The model resolves it once.

## Model

| member | source | states |
|---|---|---|
| `Pagination.GetGithubData` | main.py:18-36 | the loop returns exactly what `Paginate(rs, 1)` gives: the items, the page sent with each request, and why it stopped |
| `Pagination.Paginate` | main.py:20-35 | one request per consumed response, never more requests than responses |
| `Pagination.PaginateItems` | main.py:23-28 | the items are the data of every consumed 200 response, concatenated in arrival order |
| `Pagination.PaginateStops` | main.py:20-35 | the loop stops right after the first short 200 page or non-200/403 status and never before; a short page gives `LastPage`, another status gives `Failed(status)`, and running out happens only when no response ends the loop |
| `Pagination.PaginatePages` | main.py:19-32 | the first request is for page 1; after a 403 the same page is requested again, after a full 200 page the next one |
| `Pagination.FullPagesThenShortPage` | main.py:23-28 | k full pages then a page of m < 100 items: k + 1 requests, 100k + m items, stop on the last page |
| `Items.PullIdentity` | main.py:62 | a `null` user raises; the login is the key when present (a `null` login gives `None`); the key is "unknown" only for an absent user or login (or a login that is literally "unknown") |
| `Items.CommitAuthorName` | main.py:66 | the commit author's name, "unknown" when the `commit` or `author` key is absent, an exception when either is `null` |
| `Items.CommitIdentity` | main.py:64-66 | a `null` author raises; a truthy login is the key; an absent author or a falsy login falls back to the commit author name; an empty key never comes from the login |
| `Items.IdentityBranchesCompared` | main.py:62-66 | for the same account object, pulls and commits agree on a truthy login; on an empty login pulls keep "" while commits fall back to the author name |
| `Items.CommitDetails` | main.py:46-53 | (0, 0) for a non-200 status; for 200 an exception exactly when `stats` is `null`, else additions and deletions with a missing one read as 0 |
| `Aggregation.CountItem` | main.py:60-102 | one item: its first exception is returned unchanged, else the dictionary gains its contribution (endpoint counter + 1, lines + its total) under its identity |
| `Aggregation.GetUserStatsPerEndpoint` | main.py:58-104 | the loop returns the fold of all contributions, or the first exception |
| `Aggregation.FetchAndCount` | main.py:55-58 | the fold runs over exactly the items the paginated fetch collects: the result is `UserStats` of `Paginate(rs, 1).items` |
| `Aggregation.EntriesPerItem` | main.py:60-102 | the fold succeeds exactly when every item's extraction does, with one contribution per item in order; otherwise the error is that of the first item that raises |
| `Aggregation.TallyCounts` | main.py:68-102 | the keys are exactly the resolved identities; a key's endpoint counter is its number of items (so at least 1), the other counter stays 0, and its lines are the sum of its items' totals (PR file changes on a 200, else 0; or additions + deletions) |
| `Aggregation.TallyTotal` | main.py:68-93 | summed over all keys, the endpoint's counter equals the number of items |
| `Report.MergeStats` | main.py:122-139 | the two merge loops build `Merge(pr, cm)`: the union of keys, `prs` from the PR stats and `commits` from the commit stats (0 where absent), `lines` the sum of both |
| `Report.MergeOfTallies` | main.py:123-139 | merging two folds: a key is present exactly when some pull request or commit resolved to it; its prs and commits count those (one of them positive) and its lines add both kinds of contribution |
| `Report.Insert` | main.py:145 | inserting keeps a permutation (the new row added) and keeps a descending list descending |
| `Report.SortDescending` | main.py:145 | the output is a permutation of the rows, and (prs, commits, lines) never increases lexicographically from any row to a later one |
| `Report.SortStable` | main.py:145 | rows with equal counters keep their input order, as Python's stable sort does |
| `Report.SortedListing` | main.py:145 | sorting a listing of the merged dictionary lists the same entries, each once |
| `RepoUrl.TrimStart` | main.py:120 | `strip` from the left: the longest suffix not starting with whitespace, everything dropped being whitespace |
| `RepoUrl.TrimEnd` | main.py:120 | `strip` from the right: the longest prefix not ending with whitespace, everything dropped being whitespace |
| `RepoUrl.SplitPieces` | main.py:120 | `split('/')` pieces hold no '/', join back to the input, and number more than one exactly when the input holds a '/' |
| `RepoUrl.SplitJoin` | main.py:120 | splitting a join of separator-free pieces gives those pieces back |
| `RepoUrl.LastTwoSpec` | main.py:120 | unpacking succeeds exactly when the stripped url holds a '/'; owner and repo then hold no '/' and are the url's last two pieces |

## Left out

- The HTTP requests, url and header construction, the token, and JSON decoding (main.py:8-16, 22-24, 40-47, 74-78) are not modelled. Their results are inputs: the response sequence, and the `Api` value for the per-item requests.
- `time.sleep(60)` and the possibly endless 403 retry (main.py:30-31) are not modelled. A finite response sequence stands in for them, and running out of it is reported as `OutOfResponses`.
- `input()`, every `print`, and the report text, including the "no contributions" message (main.py:108-111, 143-152), are console I/O and are not modelled.
- Date parsing with `strptime` and the `isoformat()` query strings (main.py:10-11, 113-118) are library date handling and are not modelled.
- Network-level failures (DNS, refused connections, timeouts) would end the process. They are not modelled.
- JSON values of unexpected types are not modelled: a non-object item, a non-string login or name, a non-list files body, or `null` in `changes`, `additions` or `deletions`. The model's fields are typed, and a missing number reads as 0.
- Dictionary insertion order is not modelled. `Report.SortDescending` sorts any listing of the merged dictionary. Python lists `user_stats.items()` in insertion order, so among fully tied contributors the model's order follows whichever listing it is given.
- Endpoints other than `pulls` and `commits` are not modelled. `main` never passes one; with another endpoint, `user_login` would be unbound.
- Items.Api: each per-item request (a pull's `/files`, a commit's detail) is a fixed function of its URL text, so two requests to the same URL in one run get the same answer. The source sends one request per item, and two commits without a `sha` both request `.../commits/None` (main.py:96-99) and could get different answers. No proved property depends on this.
