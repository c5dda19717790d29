# Facebook insights pipeline of kodikos-AdVise, in Dafny

This project models the backend of the kodikos-AdVise ad-analytics service. The backend pulls
Facebook Marketing API insights into a database and serves them back with derived metrics. The
model covers these parts of the backend:

- **Graph API client** (`app/facebook/client.py`):
  - the retry loop with exponential back-off;
  - the long-lived token's expiry arithmetic;
  - the query parameters of an insights request;
  - the cursor loop that fetches every page.
- **Facebook router** (`app/facebook/router.py`):
  - `fetch_insights`: its validation order, how each record is read, and the insert-or-skip loop
    over the snapshot table;
  - the OAuth `state` encoder and decoder, and the callback that stores one credential per
    listed ad account;
  - the system-user token endpoint;
  - the paginated read of stored snapshots.
- **Metrics** (`app/utils.py`, `app/schemas.py`): CTR, ROAS, the metrics summary, and the
  request and response schemas.
- **Tables** (`app/models.py`): users, credentials and metric snapshots, as datatypes, with the
  constraints the database and the writers keep.

Modules, one per file:

| module | file | models |
|---|---|---|
| `Wrappers` | wrappers.dfy | `Option` and `Result` |
| `Text` | text.dfy | the Python string operations the code uses: `str(int)`, `int(str)`, `startswith`, `replace(p, "")`, `split`, `join` |
| `Json` | json.dfy | decoded JSON values, truthiness, `dict.get`, `int(v)` and `float(v)` |
| `Dates` | dates.dfy | `strptime(s, "%Y-%m-%d")` and the order of dates |
| `Models` | models.dfy | the three tables, their defaults and their invariants |
| `Utils` | utils.dfy | `calculate_ctr`, `calculate_roas`, `format_metrics_summary` |
| `Schemas` | schemas.dfy | `UserCreate`, `SystemUserTokenRequest`, `FetchInsightsResponse`, `MetricSnapshotResponse.from_orm_with_computed` |
| `Client` | client.dfy | `_request_with_retry`, `extend_token`, `get_insights`, `get_all_insights_pages` |
| `OAuthState` | oauth_state.dfy | the `state` string of the OAuth login and callback |
| `Insights` | insights.dfy | reading one insight record, and the ingest loop as a function of the table and the records |
| `Credentials` | credentials.dfy | the check-then-update-or-insert of (user, ad account) credentials |
| `ReadPath` | read_path.dfy | filter, newest-first order and offset/limit paging |
| `Router` | router.dfy | the endpoints, as methods of a `Store` class holding the three tables |

The outside world becomes inputs:

- The network is a script of replies. `RequestWithRetry` takes a function from attempt number
  to outcome; the other operations take the decoded reply, or the list of pages.
- `time.sleep` becomes the list of sleep durations asked for.
- `datetime.utcnow()` becomes a `now` parameter, as seconds on the real line.
- The database becomes the sequences of rows held by `Router.Store`.

In each place below where the written description of the system and the code disagree, the
model follows the code:

- **Retries.** `_request_with_retry` retries every failed attempt, not only 429 and 5xx.
  - A 4xx status other than 429 reaches `raise_for_status()`, and the `except` around it
    retries it like a network error (`app/facebook/client.py:34-40`).
  - A status of 600 or more is retried like a 5xx, but on the last attempt `raise_for_status()`
    raises nothing for it, so it is returned as a success.
  - "Max retries exceeded" is reached only when `max_retries <= 0`.
- **Aborted ingests.** A record whose counter is not numeric, or whose `date_start` does not
  parse, aborts the whole `fetch_insights` call with 500. Rows committed earlier in the same
  call stay in the table.
- **Null entity ids.** A record whose entity id is JSON `null` fails the NOT NULL constraint
  with an `IntegrityError`, so it is counted as skipped.
- **ROAS guards.** `calculate_roas` returns 0 only when spend is exactly 0, so a negative spend
  gives a negative ratio. `from_orm_with_computed` guards with `spend > 0`. The two agree only
  on spend ≥ 0 (`Schemas.RoasGuardsDifferOnNegativeSpend`).

## Model

| member | source | states |
|---|---|---|
| Text.IntToString | app/facebook/router.py:35 | `str(id)` is non-empty and made only of digits and a minus sign |
| Text.IntToStringRoundTrip | app/facebook/router.py:95 | `int(str(n)) == n` for every integer, so the user id written into the state is read back exactly |
| Text.ParseInt | app/facebook/router.py:95 | `int(s)` accepts a non-empty run of digits and gives its decimal value; a result needs a non-empty string |
| Text.RemoveAll | app/facebook/router.py:95-97 | `s.replace(pat, "")` never lengthens the text |
| Text.RemoveAbsent | app/facebook/router.py:95-97 | `replace` leaves text that does not contain the pattern unchanged |
| Text.Split | app/facebook/router.py:92 | `split` always gives at least one part |
| Text.SplitAtFirst | app/facebook/router.py:92 | splitting text whose first part has no separator gives that part, then the split of the rest |
| Text.SplitJoin | app/facebook/client.py:109 | splitting a join on its separator gives back the parts, when no part contains the separator |
| Json.GetOr | app/facebook/router.py:366 | `d.get(key, default)`: the value when the key is present, the default otherwise |
| Json.Truncate | app/facebook/router.py:385-386 | `int(x)` on a float truncates toward zero, for both signs |
| Json.ToInt | app/facebook/router.py:385-386 | `int(v)` keeps JSON integers and refuses None, lists and dicts |
| Json.ParseUnsignedDecimal | app/facebook/router.py:387 | an unsigned decimal numeral reads as a value that is not negative |
| Json.ParseDecimal | app/facebook/router.py:387 | a numeral of plain digits reads as its integer value |
| Json.ToFloat | app/facebook/router.py:387 | `float(v)` keeps integers and floats and refuses None, lists and dicts |
| Dates.ParseDate | app/facebook/router.py:298-299 | a date accepted by `%Y-%m-%d` is a real calendar date, with a 4-digit year and a dash after it |
| Dates.FormatDate | app/facebook/router.py:298 | a date written as `YYYY-MM-DD` has 10 characters, with dashes at positions 4 and 7 |
| Dates.FormatParseRoundTrip | app/facebook/router.py:298-299 | every valid date written as `YYYY-MM-DD` parses back to itself |
| Dates.NotAfterTotal | app/facebook/router.py:500 | the date order is total and antisymmetric, so rows can be ordered by `ts` |
| Models.ParseLevel | app/facebook/router.py:293 | an accepted level string is the name of the level it gives |
| Models.ParseLevelName | app/facebook/router.py:293 | each of the four level names is accepted and gives its own level back |
| Models.DefaultAccount | app/models.py:19-30 | a new credential has token type "Bearer", is not a system user's and has no expiry, so it never counts as expired |
| Models.DefaultSnapshot | app/models.py:40-54 | a new snapshot has zero counters and amounts, a NULL `raw`, and the key of its account, date, entity and level |
| Models.AppendFreshKey | app/models.py:58-59 | appending a snapshot whose key is not yet in the table keeps (account, ts, entity, level) unique |
| Utils.Round2 | app/utils.py:21 | rounding to two decimals moves a value by at most half a hundredth |
| Utils.Round2Monotone | app/utils.py:21 | rounding to two decimals keeps the order of its arguments |
| Utils.Round2Zero | app/utils.py:21 | a value that is not negative rounds to 0 exactly when it is below 0.005 |
| Utils.CalculateCtr | app/utils.py:8-21 | 0 when there are no impressions; otherwise within half a hundredth of clicks/impressions·100 |
| Utils.CalculateRoas | app/utils.py:24-37 | 0 when nothing was spent; otherwise within half a hundredth of revenue/spend |
| Utils.CtrIsPercentage | app/utils.py:8-21 | with 0 ≤ clicks ≤ impressions, CTR lies between 0 and 100 |
| Utils.CtrZeroExactly | app/utils.py:19-21 | CTR is 0 exactly when impressions are 0 or the rate rounds away (20000·clicks < impressions) |
| Utils.RateBelowHalfHundredth | app/utils.py:21 | the percentage clicks/impressions·100 is below 0.005 exactly when 20000·clicks < impressions |
| Utils.RoasZeroExactly | app/utils.py:35-37 | for amounts that are not negative, ROAS is 0 exactly when spend is 0 or 200·revenue < spend |
| Utils.RatiosNonNegative | app/utils.py:19-37 | CTR and ROAS are not negative for inputs that are not negative |
| Utils.TotalsSplit | app/utils.py:78-82 | each summary total over a concatenation is the sum of the totals over its parts |
| Utils.FormatMetricsSummary | app/utils.py:64-103 | an empty list gives "No metrics available."; otherwise the day count and plain-sum totals, the averages computed from the totals, and trend lines for the first three metrics in input order |
| Utils.AverageCtrIsNotMeanOfDays | app/utils.py:84-85 | the average CTR is the CTR of the totals: 1/100 and 0/1 give 0.99, not the mean 0.5 of the daily rates |
| Schemas.ValidateUserCreate | app/schemas.py:7-9 | a signup is accepted exactly when the password has at least 6 characters, and it is then kept unchanged |
| Schemas.AdAccountIdShape | app/schemas.py:40 | `^act_\d+$`: accepted ids are exactly "act_" followed by one or more digits |
| Schemas.NumberedAccountAccepted | app/schemas.py:40 | "act_" followed by any account number is accepted |
| Schemas.ValidateSystemUserTokenRequest | app/schemas.py:39-41 | the request is valid exactly when the ad account id matches the pattern, and it is then kept unchanged |
| Schemas.NewFetchInsightsResponse | app/schemas.py:44-48 | the response carries the two counters, with `next_cursor` None and `status` "success" |
| Schemas.FromOrmWithComputed | app/schemas.py:68-86 | every stored field is copied unchanged; CTR is 0 when impressions ≤ 0 and ROAS is 0 when spend ≤ 0 |
| Schemas.ComputedFieldsMatchUtils | app/schemas.py:71-72 | for impressions and spend that are not negative, the response's CTR and ROAS equal `calculate_ctr` and `calculate_roas` |
| Schemas.RoasGuardsDifferOnNegativeSpend | app/schemas.py:72 | with spend -1 and revenue 1, the response gives ROAS 0 while `calculate_roas` gives -1 |
| Schemas.ComputedFieldsExample | tests/test_facebook.py:138-159 | 50 clicks on 1000 impressions and 500 revenue on 100 spend give CTR 5.0 and ROAS 5.0 |
| Schemas.DefaultSnapshotRatios | app/schemas.py:71-72 | a snapshot with default counters reads back with CTR 0 and ROAS 0 |
| Client.RequestWithRetry | app/facebook/client.py:17-44 | with `max_retries <= 0` there are no requests and "Max retries exceeded"; otherwise 1 to `max_retries` requests; sleep i is `backoff_factor ** i` and no sleep follows the last request; every request but the last failed; the result is the last response exactly when it is accepted, and otherwise the last attempt's error after `max_retries` requests |
| Client.Seconds | app/facebook/client.py:74 | `timedelta(seconds=v)` of an integer is that many seconds |
| Client.ExtendToken | app/facebook/client.py:59-77 | a failed request fails; on success every key of the reply except `expires_at` is kept; `expires_at` is now plus `expires_in` seconds, or plus 60 days when `expires_in` is absent; it succeeds exactly when the reply is a dict whose `expires_in`, if present, is a number |
| Client.InsightsRequest | app/facebook/client.py:104-114 | the path is `/<ad account>/insights`, `limit` is 100, `fields` is the fields joined with ",", `time_range` is `{"since":…,"until":…}`, and `after` is present exactly when a non-empty cursor is given |
| Client.InsightsRequestParams | app/facebook/client.py:104-114 | `access_token` is the token, `level` is the level, and apart from `after` the parameters are exactly `access_token`, `level`, `time_range`, `fields` and `limit` |
| Client.TimeRangeRoundTrip | app/facebook/client.py:108 | the `time_range` value gives back both dates, when they contain no double quote |
| Client.FieldsRoundTrip | app/facebook/client.py:109 | the joined `fields` value splits back into the requested fields |
| Client.StopIndex | app/facebook/client.py:152-157 | the loop stops at the first page that fails or has no non-empty `after` cursor, and at no earlier page |
| Client.GetAllInsightsPages | app/facebook/client.py:119-159 | the result is the in-order concatenation of the pages' `data`, or the first failure; one request per page up to the stopping page; the first request has no cursor and each later one carries the previous page's cursor |
| Client.PlannedRequests | app/facebook/client.py:134-157 | the first k requests of the fetch are k insights requests for the same account, dates, level, fields and token, the first without a cursor and each later one with the cursor of the page before it |
| Client.ChainedPagesFetchedInFull | app/facebook/client.py:134-157 | N pages chained by cursors cost exactly N requests and give all their records |
| Client.PagesWithoutDataAddNothing | app/facebook/client.py:148-149 | a page without `data` contributes no records |
| OAuthState.EncodeState | app/facebook/router.py:35-37 | the state starts with `user_` and contains a `\|` exactly when a non-empty redirect path is given |
| OAuthState.UserPartHasNoSeparator | app/facebook/router.py:35 | the `user_<id>` part never contains `\|` |
| OAuthState.ReadPart | app/facebook/router.py:93-97 | only a `user_` part changes the id and only it can fail, exactly when its remainder is not an integer; a part with neither prefix is ignored |
| OAuthState.ParseState | app/facebook/router.py:89-97 | the loop over the parts gives the decoding: a missing or empty state leaves the defaults; the parts are read left to right; the first bad id aborts |
| OAuthState.FailureSticks | app/facebook/router.py:92-95 | once a part raises, later parts do not change the outcome |
| OAuthState.UserPartReads | app/facebook/router.py:94-95 | a `user_<id>` part sets the id to `id` |
| OAuthState.RedirectPartReads | app/facebook/router.py:96-97 | a `redirect_<p>` part sets the path to `p`, when `p` does not contain `redirect_` |
| OAuthState.StateRoundTrip | app/facebook/router.py:35-97 | decoding the login's state gives back the user id, and the redirect path or "/dashboard", when the path contains neither `\|` nor `redirect_` |
| OAuthState.PathSeparatorInjectsParts | app/facebook/router.py:35-97 | a redirect path `q\|user_<other>` decodes to the user `other`, not to the user who logged in |
| OAuthState.RedirectPrefixInPathIsLost | app/facebook/router.py:96-97 | the path "/redirect_x" comes back as "/x", because `replace` removes every occurrence |
| OAuthState.UnidentifiedStatesRejected | app/facebook/router.py:87-99 | no state, an empty state, a state carrying only a redirect path, and the login state for user id 0 all decode without identifying a user, so the callback answers them with the invalid-state page (`Router.Store.OAuthCallback`) |
| OAuthState.AcceptedIdsAreEncodable | app/facebook/router.py:35-99 | every non-zero user id survives the round trip and is accepted |
| Insights.InsightFields | app/facebook/router.py:327-348 | the seven common fields in order, then the level's id field |
| Insights.EntityId | app/facebook/router.py:374-383 | a missing id gives "unknown", or the ad account for the account level; a text id is kept; a null id gives none; any other value fails |
| Insights.ActionEntries | app/facebook/router.py:391-392 | a list is iterated as is; None and scalars cannot be iterated |
| Insights.SumConversions | app/facebook/router.py:390-394 | the loop computes the purchase count of the actions array |
| Insights.SumRevenue | app/facebook/router.py:397-401 | the loop computes the purchase value of the action_values array |
| Insights.CountFailureSticks | app/facebook/router.py:392-394 | once an action cannot be read, the count fails |
| Insights.ValueFailureSticks | app/facebook/router.py:399-401 | once an action value cannot be read, the revenue fails |
| Insights.Counted | app/facebook/router.py:392-393 | an entry takes part in the sums exactly when it is a purchase dict or not a dict at all (which raises); there are no more of them than entries |
| Insights.OtherActionsIgnoredInCount | app/facebook/router.py:392-394 | conversions depend only on the purchase entries; other action types are ignored |
| Insights.OtherActionsIgnoredInValue | app/facebook/router.py:399-401 | revenue depends only on the purchase entries |
| Insights.PurchaseCountAppend | app/facebook/router.py:390-394 | the conversions of two arrays back to back are the sum of each array's conversions |
| Insights.Normalize | app/facebook/router.py:364-404 | a record that is not a dict fails; it is skipped for want of a start date exactly when `date_start` is falsy; a start date that does not parse fails; then, in the handler's order, an unreadable `impressions`, `clicks`, `spend`, `actions` array and `action_values` array each fail, and an entity id of the wrong type fails; a row has the parsed date, the counters as `int`/`float` read them with their defaults, the purchase count and purchase value of the two arrays, the entity id by level, and the raw record |
| Insights.ReadRecord | app/facebook/router.py:364-404 | the statements that read one record compute the normalisation |
| Insights.MissingActionsCountZero | app/facebook/router.py:390-401 | without actions arrays, conversions and revenue are 0 |
| Insights.SnapshotOf | app/facebook/router.py:407-419 | the new row gets the next id, the key (account, ts, entity, level), the record's impressions, clicks, spend, conversions and revenue, the raw record and the creation time |
| Insights.IngestStep | app/facebook/router.py:364-427 | an aborted run stays aborted; an unreadable record aborts with nothing else changed; a record whose key is already covered bumps `skipped` only; any other readable row is appended as its snapshot and bumps `ingested`; so each step that does not abort bumps exactly one counter |
| Insights.IngestConservation | app/facebook/router.py:361-434 | a completed run has ingested + skipped = number of records; in every run the old table is a prefix of the new one, which has exactly one more row per ingested record |
| Insights.AbortSticks | app/facebook/router.py:436-440 | after an abort the remaining records change nothing |
| Insights.IngestStepKeepsTable | app/facebook/router.py:407-427 | one step keeps the keys unique and the ids sequential |
| Insights.IngestKeepsUniqueKeys | app/models.py:59 | a whole run keeps at most one snapshot per (account, ts, entity, level) |
| Insights.CoveredGrows | app/facebook/router.py:423-427 | a record that would be skipped as a duplicate stays so as the table grows |
| Insights.CompletedRunCovers | app/facebook/router.py:407-427 | after a completed run every record it read has its key in the table, or is skipped anyway |
| Insights.CoveredRecordsSkipped | app/facebook/router.py:423-427 | records whose keys are all present are all skipped, and the table is unchanged |
| Insights.IngestIdempotent | app/facebook/router.py:407-427 | ingesting the same records again ingests 0, skips all of them and adds no row |
| Insights.NoStartDateSkipped | app/facebook/router.py:366-369 | a record without `date_start` is counted as skipped and adds no row |
| Insights.NormalizedRow | app/facebook/router.py:364-404 | a record whose fields all read gives the row built from those readings |
| Insights.ExampleRecordNormalized | app/facebook/router.py:364-404 | a sample campaign record reads as date 2024-01-01, entity "c1", 1000 impressions, 50 clicks, spend 100, 5 conversions and revenue 500 |
| Insights.ExampleCounters | app/facebook/router.py:385-401 | the Graph API's string numerals "1000" and "100.0" read as 1000 and 100.0 |
| Insights.DecimalExample | app/facebook/router.py:387 | `float("<n>.0")` is `n` |
| Credentials.FirstCredential | app/facebook/router.py:167-174 | the first credential of the (user, ad account) pair, or none when no row belongs to the pair |
| Credentials.OnlyCredential | app/facebook/router.py:235-244 | with one credential per pair, the one found is the pair's only row |
| Credentials.UpsertOAuth | app/facebook/router.py:163-193 | only the pair's rows may change; afterwards the pair's credential holds the new token and expiry |
| Credentials.UpsertOAuthKeepsFlags | app/facebook/router.py:176-181 | an existing credential gets the token, expiry and update time, and keeps its type and system-user flag |
| Credentials.UpsertOAuthCreates | app/facebook/router.py:182-193 | otherwise one Bearer, non-system credential is appended with the next id |
| Credentials.UpsertSystem | app/facebook/router.py:234-266 | only the pair's rows may change; afterwards the pair's credential holds the token, is a system user's and has no expiry |
| Credentials.SystemCredentialNeverExpires | app/facebook/router.py:248 | a system-user credential never counts as expired, whatever the clock |
| Credentials.AppendKeepsTable | app/facebook/router.py:182-193 | appending a credential for a pair without one keeps one credential per pair and sequential ids |
| Credentials.UpdateKeepsTable | app/facebook/router.py:176-181 | rewriting a row in place without changing its owner keeps one credential per pair and sequential ids |
| Credentials.UpsertOAuthKeepsTable | app/facebook/router.py:163-193 | the callback's upsert keeps one credential per pair |
| Credentials.UpsertSystemKeepsTable | app/facebook/router.py:234-266 | the system-user upsert keeps one credential per pair |
| Credentials.UpsertOAuthIdempotent | app/facebook/router.py:163-193 | repeating the same upsert changes nothing |
| Credentials.UpsertOAuthKeepsPair | app/facebook/router.py:167-193 | a credential of the upserted pair stays a credential of that pair |
| Credentials.UpsertOAuthKeepsOthers | app/facebook/router.py:163-193 | an upsert for one ad account leaves every other pair's credential as it was |
| Credentials.ConnectAllStoresEach | app/facebook/router.py:163-195 | after the loop every listed ad account has a credential with the new token and expiry |
| Credentials.ConnectAllKeepsTable | app/facebook/router.py:163-195 | the whole loop keeps one credential per pair and sequential ids, given that each lookup sees the rows added earlier in the loop (see "Left out") |
| ReadPath.Filter | app/facebook/router.py:475-493 | the filtered rows are exactly the rows that satisfy the condition, and there are no more of them |
| ReadPath.FilterCount | app/facebook/router.py:496 | each matching row is kept as many times as the table holds it, and no other row is kept, so the length of the filter is the number of matching rows |
| ReadPath.FilterTwice | app/facebook/router.py:477-493 | successive filters are one filter by the conjunction |
| ReadPath.InsertByTs | app/facebook/router.py:500 | inserting into a newest-first list keeps it newest-first and adds exactly that row |
| ReadPath.SortByTsDesc | app/facebook/router.py:500 | the ordered rows are newest first and a permutation of the input |
| ReadPath.PageOf | app/facebook/router.py:498-500 | at most `limit` rows, starting at offset (page-1)·limit; empty past the end; exactly `limit` or the rest |
| ReadPath.PagesAdjacent | app/facebook/router.py:498-500 | page p+1 starts where page p ends |
| Router.AdAccountIds | app/facebook/router.py:163-164 | the listing is unreadable exactly when some entry is not a dict with a text `id`; otherwise the ids are those entries' `id`s, one per entry, in order |
| Router.Store.FetchInsights | app/facebook/router.py:279-440 | bad level gives 400, then bad dates 400, then no credential 404, then an expired token 401, each before any request and leaving the table as it was; then one request per page with the level's fields; a failed fetch gives 500; otherwise the table and counters are those of the ingest run, with 500 if it aborted and the counters otherwise; users, credentials and table invariants are kept |
| Router.Store.OAuthCallback | app/facebook/router.py:50-221 | a provider error, a missing code, an unreadable or zero user id and an unknown user are reported in the handler's order, each before any provider call and with the credentials unchanged; once those checks pass, the outcome and the credentials are those of `ConnectUser` for the user id read from the state |
| Router.Store.ConnectUser | app/facebook/router.py:121-134 | a failed or non-dict token reply fails the callback and a reply without a truthy token is a failed exchange, both with the credentials unchanged; with a token the outcome and credentials are those of `ConnectAccounts` |
| Router.Store.ConnectAccounts | app/facebook/router.py:136-209 | an unreadable extension (a failure, not a dict, or an `expires_in` that is not a number) fails; then a failed or non-dict account listing fails; then a falsy `data` is "no ad accounts"; then a `data` that is not a list of dicts with text ids, or a missing long-lived token, fails; otherwise the long-lived token and its expiry (the default lifetime when the provider gives none) are stored for every listed ad account, the credentials being the old ones with each upserted in turn; only a connection changes the credentials |
| Router.ConnectedCredentialsLive | app/facebook/router.py:136-195 | after a connection whose `expires_in` is absent or not negative, every listed ad account has a credential of the user holding the new token that the insights fetch does not find expired at the time of the callback |
| Router.Store.StoreAccounts | app/facebook/router.py:161-195 | stores every listed ad account when all entries are readable, and otherwise rolls back to the credentials as they were |
| Router.Store.IngestRecords | app/facebook/router.py:361-427 | the table and the two counters are exactly those of the ingest run over the records: committed rows are kept even when a later record aborts; users and credentials are untouched and the table keeps unique keys and sequential ids |
| Router.Store.IngestOne | app/facebook/router.py:363-427 | one record is one step of the ingest run: an unreadable record aborts, a record without a start date or entity id is skipped, a duplicate key is rolled back and skipped, any other row is appended and counted |
| Insights.IngestFinish | app/facebook/router.py:363-440 | a run that has aborted or read every record is the whole run, and its table has unique keys and sequential ids |
| Router.Store.InsertSystemUserToken | app/facebook/router.py:224-266 | an ad account id that fails the pattern gives 422 and no change; otherwise the credentials become the system-user upsert and the response is the pair's credential: the caller's, with the token, a system user's, with no expiry |
| Router.Store.GetInsightsFromDb | app/facebook/router.py:443-505 | bad paging gives 422, no credential 404, a bad `since` and then a bad `until` 400; otherwise the result is that of `QuerySnapshots` with the parsed filters |
| Router.Store.QuerySnapshots | app/facebook/router.py:475-505 | `total` is the number of rows of the account matching the level and date filters, and the items are the requested page of them, newest first, each with CTR and ROAS |
| Router.FilterSame | app/facebook/router.py:474-493 | two query conditions that agree on every row select the same rows |
| Router.AdAccountIdsPrefixFails | app/facebook/router.py:163-164 | one unreadable entry makes the whole listing unreadable |

## Left out

- Real HTTP, `time.sleep` and `datetime.utcnow` are not modelled. Their results are inputs: the
  scripted replies and pages, the recorded sleep list, and `now`.
- `exchange_code_for_token` is not modelled. The callback receives the result of its request as
  an input.
- `Client.RequestWithRetry` does not model `response.json()` failing on a body that is not JSON.
  The body is a decoded value.
- `Client.GetAllInsightsPages` requires the scripted pages to reach a stopping page. The Python
  loop runs forever on a server that always returns a cursor.
- Malformed pages are not modelled: a `data` that is not a list, or a `paging` or cursor of the
  wrong type.
- Python's full number grammar is not modelled.
  - For `int()`: Unicode digits, surrounding whitespace and underscores.
  - For `float()`: exponents, `inf` and `nan`.
  - The model accepts an optional sign and decimal digits.
- IEEE floating point is not modelled. Amounts are reals.
- `Utils.Round2` is half-up on reals, not `round`'s round-half-even on binary floats. Only
  properties that hold for any rounding within half a hundredth are relied on.
- The text of the metrics summary is not modelled: currency formatting and thousands
  separators. Its numbers and trend lines are.
- `enrich_metric_with_computed_fields` is left out. It reads `metric.account_id`, which a
  snapshot does not have, so it cannot run.
- The HTML bodies of the callback are not modelled. The outcome datatype names the page.
- The authorization URL of the login endpoint is not modelled. The `state` it sends is
  (`OAuthState.EncodeState`). The callback decodes `redirect_path` but never uses it afterwards.
- `list_facebook_accounts` is not modelled. It is a single query with no logic of its own.
- `EmailStr` validation is not modelled. `ValidateUserCreate` checks only the password length.
- `Insights.EntityId`: a non-text, non-null entity id aborts the run in the model. The real
  outcome depends on the database driver.
- `Router.Store.OAuthCallback`: a non-text ad account id or long-lived token fails the callback
  in the model. The real outcome depends on the database driver.
- `datetime` overflow on huge `expires_in` values is not modelled.
- Database integer overflow of ids is not modelled.
- Column widths and integer widths are not modelled: `String(50)` and `String(20)` columns,
  and 32-bit `Integer` counters. On a database that enforces them, a too-long entity id or a
  counter above 2³¹−1 raises `DataError`, which is not an `IntegrityError`, so the fetch aborts
  with 500. The model stores the value.
- Dates.ParseDate and Schemas.AdAccountIdShape accept only ASCII digits. `strptime` and
  pydantic's `\d` also accept other Unicode decimal digits.
- The query defaults are not modelled: `level="campaign"` for the insights fetch
  (`app/facebook/router.py:284`), and `limit=50`, `page=1` for the read endpoint
  (`app/facebook/router.py:446-447`). The endpoints take every parameter explicitly.
- Credentials.ConnectAllKeepsTable, `Credentials.ConnectAll` and `Router.Store.StoreAccounts` assume that
  each `.first()` of the callback's loop sees the rows added earlier in the same loop (session
  autoflush). Under `autoflush=False`, a listing that repeats an ad account id with no stored
  row inserts two rows at commit, and one credential per pair would not hold. The test session
  factory (`tests/test_facebook.py:15`) turns autoflush off. The application's own session
  factory is not part of this model.
- SQL tie order is not modelled. Rows with equal `ts` are returned in table order.
- Ids are sequential from 1. Sequence gaps left by rolled-back inserts are not modelled.
- Concurrency, transactions and locking are not modelled. Two ingests racing on the unique index
  are outside the model.
- Authentication (`get_current_user`) is not modelled. The caller's user id is a parameter.
