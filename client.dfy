/**
  `FacebookGraphAPIClient`: the retrying request, the long-lived token exchange with its expiry,
  the insights query parameters and the cursor-following fetch of every page.

  The network, the clock and `time.sleep` are inputs: `server(i)` is what the i-th attempt of a
  request produced, a page script lists what each insights request returned, `now` is the clock,
  and the sleeps asked for are returned instead of slept.
 */
module Client {
  import opened Wrappers
  import opened Text
  import opened Dates
  import Json

  const DefaultMaxRetries := 3
  const DefaultBackoffFactor := 2.0

  /** What one HTTP attempt produced: a response, or a `requests` network exception. */
  datatype Attempt = Responded(status: int, body: Json.Value) | NetworkFailure

  /** The exceptions a request ends with. */
  datatype RequestError =
    | HttpError(status: int)     // `HTTPError` from `raise_for_status()`
    | NetworkError               // the `RequestException` of the last attempt, re-raised
    | MaxRetriesExceeded         // `Exception("Max retries exceeded")`

  /** `raise_for_status()` raises for client (4xx) and server (5xx) statuses only. */
  predicate RaisesForStatus(status: int) {
    400 <= status < 600
  }

  /** The statuses the loop singles out for a retry: 429 and everything from 500 up. */
  predicate RateLimitedOrServerError(status: int) {
    status == 429 || status >= 500
  }

  /** The attempt's response is returned: `raise_for_status()` lets it through, and it is not retried first. */
  predicate Accepted(a: Attempt, isLast: bool) {
    a.Responded? && !RaisesForStatus(a.status) && (isLast || !RateLimitedOrServerError(a.status))
  }

  /** The exception a failed last attempt re-raises. */
  function ErrorOf(a: Attempt): RequestError {
    if a.NetworkFailure? then NetworkError else HttpError(a.status)
  }

  /** `backoff_factor ** attempt` */
  function Backoff(factor: real, attempt: nat): real {
    if attempt == 0 then 1.0 else factor * Backoff(factor, attempt - 1)
  }

  /**
    `_request_with_retry`: at most `maxRetries` attempts; every attempt that fails and is not
    the last is followed by a sleep of `backoffFactor ** attempt` and another attempt.
   */
  method RequestWithRetry(maxRetries: int, backoffFactor: real, server: nat -> Attempt)
    returns (r: Result<Json.Value, RequestError>, sleeps: seq<real>, requests: nat)
    ensures maxRetries <= 0 ==> requests == 0 && sleeps == [] && r == Failure(MaxRetriesExceeded)
    ensures maxRetries > 0 ==> 1 <= requests <= maxRetries && |sleeps| == requests - 1
    ensures forall i :: 0 <= i < |sleeps| ==> sleeps[i] == Backoff(backoffFactor, i)
    ensures forall i :: 0 <= i < requests - 1 ==> !Accepted(server(i), false)
    ensures requests > 0 ==> (r.Success? <==> Accepted(server(requests - 1), requests == maxRetries))
    ensures requests > 0 && r.Success? ==> r.value == server(requests - 1).body
    ensures requests > 0 && r.Failure? ==> requests == maxRetries && r.error == ErrorOf(server(requests - 1))
  {
    sleeps, requests := [], 0;
    var attempt := 0;
    while attempt < maxRetries
      invariant attempt == 0 || attempt < maxRetries
      invariant requests == attempt && |sleeps| == attempt
      invariant forall i :: 0 <= i < attempt ==> sleeps[i] == Backoff(backoffFactor, i)
      invariant forall i :: 0 <= i < attempt ==> !Accepted(server(i), false)
    {
      var outcome := server(attempt);
      requests := requests + 1;
      var retriesLeft := attempt < maxRetries - 1;
      match outcome {
        case NetworkFailure =>
          if !retriesLeft {
            return Failure(NetworkError), sleeps, requests;
          }
        case Responded(status, body) =>
          if RateLimitedOrServerError(status) && retriesLeft {
            sleeps := sleeps + [Backoff(backoffFactor, attempt)];
            attempt := attempt + 1;
            continue;
          }
          if !RaisesForStatus(status) {
            return Success(body), sleeps, requests;
          }
          if !retriesLeft {
            return Failure(HttpError(status)), sleeps, requests;
          }
      }
      sleeps := sleeps + [Backoff(backoffFactor, attempt)];
      attempt := attempt + 1;
    }
    r := Failure(MaxRetriesExceeded);
  }

  /** What `extend_token` returns: the response's keys, with `expires_at` set to a datetime. */
  datatype TokenData = TokenData(fields: map<string, Json.Value>, expiresAt: Instant)

  const ExpiresAtKey := "expires_at"
  const ExpiresInKey := "expires_in"

  /** The lifetime assumed when the response gives none: 60 days. */
  const DefaultLifetime := 60 * 24 * 60 * 60

  /** `timedelta(seconds=v)` for the JSON values it accepts (bool is an int in Python). */
  function Seconds(v: Json.Value): (r: Option<real>)
    ensures v.Int? ==> r == Some(v.i as real)
  {
    match v
    case Int(i) => Some(i as real)
    case Float(f) => Some(f)
    case Bool(b) => Some(if b then 1.0 else 0.0)
    case _ => None
  }

  /** The error of a token exchange: the request failed, or the reply cannot be read as the code reads it. */
  datatype ExchangeError = RequestFailed(cause: RequestError) | MalformedReply

  /** The extension reply can be read: a dict whose `expires_in`, when present, is a number of seconds. */
  predicate ExtensionReads(reply: Result<Json.Value, RequestError>) {
    && reply.Success? && reply.value.Obj?
    && (ExpiresInKey in reply.value.fields ==> Seconds(reply.value.fields[ExpiresInKey]).Some?)
  }

  /**
    `extend_token`: the reply's dict with `expires_at = now + expires_in` seconds, where a
    missing `expires_in` counts as 60 days.
   */
  method ExtendToken(reply: Result<Json.Value, RequestError>, now: Instant) returns (r: Result<TokenData, ExchangeError>)
    ensures reply.Failure? ==> r == Failure(RequestFailed(reply.error))
    ensures r.Success? ==> reply.Success? && reply.value.Obj?
    ensures r.Success? ==> r.value.fields == reply.value.fields - {ExpiresAtKey}
    ensures r.Success? && ExpiresInKey !in reply.value.fields ==> r.value.expiresAt == now + DefaultLifetime as real
    ensures r.Success? && ExpiresInKey in reply.value.fields ==>
      Seconds(reply.value.fields[ExpiresInKey]) == Some(r.value.expiresAt - now)
    ensures reply.Success? && reply.value.Obj? && r.Failure? ==>
      ExpiresInKey in reply.value.fields && Seconds(reply.value.fields[ExpiresInKey]).None?
    ensures r.Success? <==> ExtensionReads(reply)
  {
    if reply.Failure? {
      return Failure(RequestFailed(reply.error));
    }
    if !reply.value.Obj? {
      return Failure(MalformedReply);
    }
    var data := reply.value.fields;
    var expiresIn := Json.GetOr(data, ExpiresInKey, Json.Int(DefaultLifetime));
    var seconds := Seconds(expiresIn);
    if seconds.None? {
      return Failure(MalformedReply);
    }
    r := Success(TokenData(data - {ExpiresAtKey}, now + seconds.value));
  }

  /** A query parameter value. */
  datatype Param = PStr(s: string) | PInt(n: int)

  /** An insights request: the path under the Graph API base URL and the query parameters. */
  datatype Request = Request(path: string, params: map<string, Param>)

  const PageSize := 100

  /** `time_range`: `{"since":"<since>","until":"<until>"}`. */
  function TimeRange(since: string, until: string): string {
    "{\"since\":\"" + since + "\",\"until\":\"" + until + "\"}"
  }

  /** Reads a `time_range` value back into its two dates: the Graph API's side of the format. */
  function ParseTimeRange(s: string): Option<(string, string)> {
    if |s| < 23 || s[..10] != "{\"since\":\"" || s[|s| - 2..] != "\"}" then None
    else
      var inner := s[10..|s| - 2];
      if '"' !in inner then None
      else
        var i := IndexOf(inner, '"');
        var rest := inner[i..];
        if |rest| < 11 || rest[..11] != "\",\"until\":\"" || '"' in rest[11..] then None
        else Some((inner[..i], rest[11..]))
  }

  /** The time range sent gives back both dates, whenever neither holds a double quote. */
  lemma TimeRangeRoundTrip(since: string, until: string)
    requires '"' !in since && '"' !in until
    ensures ParseTimeRange(TimeRange(since, until)) == Some((since, until))
  {
    var s := TimeRange(since, until);
    assert s[..10] == "{\"since\":\"";
    assert s[|s| - 2..] == "\"}";
    var inner := s[10..|s| - 2];
    assert inner == since + "\",\"until\":\"" + until;
    assert inner[|since|] == '"';
    assert inner[..|since|] == since;
    var i := IndexOf(inner, '"');
    assert i == |since|;
    assert inner[i..] == "\",\"until\":\"" + until;
  }

  /** `get_insights`: the request for one page, with `after` only when a non-empty cursor is given. */
  function InsightsRequest(adAccountId: string, since: string, until: string, level: string,
                           fields: seq<string>, accessToken: string, afterCursor: Option<string>): (q: Request)
    ensures q.path == "/" + adAccountId + "/insights"
    ensures "limit" in q.params && q.params["limit"] == PInt(PageSize)
    ensures "fields" in q.params && q.params["fields"] == PStr(Join(fields, ','))
    ensures "time_range" in q.params && q.params["time_range"] == PStr(TimeRange(since, until))
    ensures "after" in q.params <==> afterCursor.Some? && afterCursor.value != ""
    ensures "after" in q.params ==> q.params["after"] == PStr(afterCursor.value)
  {
    var params := map[
      "access_token" := PStr(accessToken),
      "level" := PStr(level),
      "time_range" := PStr(TimeRange(since, until)),
      "fields" := PStr(Join(fields, ',')),
      "limit" := PInt(PageSize)];
    var params := if afterCursor.Some? && afterCursor.value != "" then params["after" := PStr(afterCursor.value)] else params;
    Request("/" + adAccountId + "/insights", params)
  }
  /**
    The request also carries the token and the level as given, and no parameter beyond the five
    named ones and the optional cursor.
   */
  lemma InsightsRequestParams(adAccountId: string, since: string, until: string, level: string,
                              fields: seq<string>, accessToken: string, afterCursor: Option<string>)
    ensures var q := InsightsRequest(adAccountId, since, until, level, fields, accessToken, afterCursor);
      && "access_token" in q.params && q.params["access_token"] == PStr(accessToken)
      && "level" in q.params && q.params["level"] == PStr(level)
      && q.params.Keys - {"after"} == {"access_token", "level", "time_range", "fields", "limit"}
  {
  }


  /** The `fields` parameter lists the requested fields again, in order, when no field name holds a comma. */
  lemma FieldsRoundTrip(fields: seq<string>)
    requires |fields| >= 1 && forall k :: 0 <= k < |fields| ==> ',' !in fields[k]
    ensures Split(Join(fields, ','), ',') == fields
  {
    SplitJoin(fields, ',');
  }

  /**
    One page of the insights endpoint: `data` (None when the key is absent) and
    `paging.cursors.after` (None when any of the three is absent or null).
   */
  datatype Page = Page(data: Option<seq<Json.Value>>, after: Option<string>)

  /** What one `get_insights` call gave: a page, or the exception of its request. */
  type PageReply = Result<Page, RequestError>

  /** The records a page contributes: `result.get("data", [])`. */
  function PageRecords(p: Page): seq<Json.Value> {
    if p.data.Some? then p.data.value else []
  }

  /** The fetch loop's state: another request is due, carrying a cursor or none, or the pages are exhausted. */
  datatype Pager = Fetching(cursor: Option<string>) | Done

  /** The transition after a page: follow a non-empty `after` cursor, otherwise stop. */
  function Advance(p: Page): Pager {
    if p.after.Some? && p.after.value != "" then Fetching(p.after) else Done
  }

  /** The reply ends the fetch: it failed, or its page has no cursor to follow. */
  predicate Stops(reply: PageReply) {
    reply.Failure? || Advance(reply.value).Done?
  }

  /** The script eventually ends the fetch; a provider that never stops handing out cursors keeps the loop running forever. */
  predicate Ends(replies: seq<PageReply>) {
    exists i :: 0 <= i < |replies| && Stops(replies[i])
  }

  /** The index of the first reply that ends the fetch. */
  function StopIndex(replies: seq<PageReply>): (n: nat)
    requires Ends(replies)
    ensures n < |replies| && Stops(replies[n])
    ensures forall i :: 0 <= i < n ==> !Stops(replies[i])
  {
    if Stops(replies[0]) then 0
    else
      var i :| 0 <= i < |replies| && Stops(replies[i]);
      assert 0 <= i - 1 < |replies[1..]| && Stops(replies[1..][i - 1]);
      1 + StopIndex(replies[1..])
  }

  /** The records of the first `k` replies, in order. */
  function Collected(replies: seq<PageReply>, k: nat): seq<Json.Value>
    requires k <= |replies| && forall i :: 0 <= i < k ==> replies[i].Success?
  {
    if k == 0 then [] else Collected(replies, k - 1) + PageRecords(replies[k - 1].value)
  }

  /** The cursor the k-th request carries: none for the first, the previous page's `after` for the rest. */
  function CursorBefore(replies: seq<PageReply>, k: nat): Option<string>
    requires k <= |replies| && (k > 0 ==> replies[k - 1].Success?)
  {
    if k == 0 then None else replies[k - 1].value.after
  }

  /** What the whole fetch returns: the failure of the reply that ended it, or every record in page order. */
  function FetchedRecords(replies: seq<PageReply>): Result<seq<Json.Value>, RequestError>
    requires Ends(replies)
  {
    var n := StopIndex(replies);
    if replies[n].Failure? then Failure(replies[n].error) else Success(Collected(replies, n + 1))
  }

  /** The first `k` requests of the fetch: each with the cursor the previous page handed out. */
  function PlannedRequests(adAccountId: string, since: string, until: string, level: string,
                           fields: seq<string>, accessToken: string, replies: seq<PageReply>, k: nat): (qs: seq<Request>)
    requires k <= |replies| && forall i :: 0 <= i < k - 1 ==> replies[i].Success?
    ensures |qs| == k
    ensures forall i :: 0 <= i < k ==>
      qs[i] == InsightsRequest(adAccountId, since, until, level, fields, accessToken, CursorBefore(replies, i))
  {
    if k == 0 then []
    else
      var earlier := PlannedRequests(adAccountId, since, until, level, fields, accessToken, replies, k - 1);
      earlier + [InsightsRequest(adAccountId, since, until, level, fields, accessToken, CursorBefore(replies, k - 1))]
  }

  /**
    `get_all_insights_pages`: request page after page, each with the previous page's cursor,
    until a page comes without one; the result is every page's records, in order.
   */
  method GetAllInsightsPages(adAccountId: string, since: string, until: string, level: string,
                             fields: seq<string>, accessToken: string, replies: seq<PageReply>)
    returns (r: Result<seq<Json.Value>, RequestError>, requests: seq<Request>)
    requires Ends(replies)
    ensures r == FetchedRecords(replies)
    ensures requests == PlannedRequests(adAccountId, since, until, level, fields, accessToken, replies, StopIndex(replies) + 1)
  {
    var n := StopIndex(replies);
    var all: seq<Json.Value> := [];
    var state := Fetching(None);
    var k := 0;
    requests := [];
    while state.Fetching?
      invariant state.Fetching? ==> k <= n && state.cursor == CursorBefore(replies, k)
      invariant state.Done? ==> k == n + 1 && replies[n].Success?
      invariant requests == PlannedRequests(adAccountId, since, until, level, fields, accessToken, replies, k)
      invariant all == Collected(replies, k)
      decreases n + 1 - k, state.Fetching?
    {
      requests := requests + [InsightsRequest(adAccountId, since, until, level, fields, accessToken, state.cursor)];
      var reply := replies[k];
      if reply.Failure? {
        return Failure(reply.error), requests;
      }
      all := all + PageRecords(reply.value);
      state := Advance(reply.value);
      k := k + 1;
    }
    r := Success(all);
  }

  /** A script of N pages in which only the last lacks a cursor. */
  predicate CursorChain(replies: seq<PageReply>) {
    |replies| >= 1
    && (forall i :: 0 <= i < |replies| ==> replies[i].Success?)
    && (forall i :: 0 <= i < |replies| - 1 ==> Advance(replies[i].value).Fetching?)
    && Advance(replies[|replies| - 1].value).Done?
  }

  /** Over N chained pages the fetch issues exactly N requests and returns all N pages' records. */
  lemma ChainedPagesFetchedInFull(replies: seq<PageReply>)
    requires CursorChain(replies)
    ensures Ends(replies)
    ensures StopIndex(replies) == |replies| - 1
    ensures FetchedRecords(replies) == Success(Collected(replies, |replies|))
  {
    assert Stops(replies[|replies| - 1]);
    var n := StopIndex(replies);
    assert Advance(replies[n].value).Done?;
  }

  /** A page without `data` contributes nothing: the records are those of the other pages. */
  lemma {:induction false} PagesWithoutDataAddNothing(replies: seq<PageReply>, k: nat, j: nat)
    requires k <= |replies| && forall i :: 0 <= i < k ==> replies[i].Success?
    requires j < k && replies[j].value.data.None?
    ensures Collected(replies, k) == Collected(replies, j) + Collected(replies[j + 1..], k - j - 1)
  {
    var rest := replies[j + 1..];
    if k == j + 1 {
      assert Collected(rest, 0) == [];
      assert Collected(replies, k) == Collected(replies, j) + PageRecords(replies[j].value);
    } else {
      PagesWithoutDataAddNothing(replies, k - 1, j);
      assert rest[k - j - 2] == replies[k - 1];
      var a, b, c := Collected(replies, j), Collected(rest, k - j - 2), PageRecords(replies[k - 1].value);
      assert Collected(rest, k - j - 1) == b + c;
      assert Collected(replies, k) == (a + b) + c == a + (b + c);
    }
  }
}
