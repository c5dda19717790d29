/**
  The Facebook endpoints over an in-memory database: the insights fetch that fills the snapshot
  table, the OAuth callback and the system-user endpoint that write credentials, and the
  paginated read of stored snapshots. The authenticated user arrives as `userId`; the Graph API
  replies and the clock are inputs.
 */
module Router {
  import opened Wrappers
  import opened Dates
  import opened Models
  import opened Schemas
  import opened Client
  import opened OAuthState
  import opened Insights
  import opened Credentials
  import opened ReadPath
  import Json

  /** An `HTTPException` (or FastAPI's own 422) with its status code. */
  datatype HttpException = HttpException(status: int)

  const BadRequest := HttpException(400)
  const Unauthorized := HttpException(401)
  const NotFound := HttpException(404)
  const Unprocessable := HttpException(422)
  const InternalError := HttpException(500)

  /** The page the OAuth callback renders. */
  datatype CallbackOutcome =
    | ProviderError          // Facebook redirected back with `error`
    | NoCode                 // no authorization code
    | InvalidState           // no usable user id in `state`
    | UserNotFound
    | TokenExchangeFailed    // the code exchange gave no access token
    | NoAdAccounts
    | Connected(stored: seq<string>, token: string, expiresAt: Instant)
    | Failed                 // an exception: the transaction is rolled back

  /** The ad account ids of `/me/adaccounts`, when every entry is a dict whose `id` is text. */
  function AdAccountIds(items: seq<Json.Value>): (r: Option<seq<string>>)
    ensures r.Some? ==> |r.value| == |items|
    ensures r.Some? ==> forall i :: 0 <= i < |items| ==> HasTextId(items[i]) && TextField(items[i].fields, "id") == Some(r.value[i])
    ensures r.None? <==> exists i :: 0 <= i < |items| && !HasTextId(items[i])
  {
    if |items| == 0 then Some([])
    else
      match AdAccountIds(items[..|items| - 1])
      case None => None
      case Some(ids) => AccountIdOf(items[|items| - 1], ids)
  }

  /** `account.get("id")` on an entry that is a dict and holds its id as text. */
  predicate HasTextId(item: Json.Value) {
    item.Obj? && TextField(item.fields, "id").Some?
  }

  /** The ids read so far, followed by the id of one more entry, if it has one. */
  function AccountIdOf(item: Json.Value, ids: seq<string>): Option<seq<string>> {
    if HasTextId(item) then Some(ids + [TextField(item.fields, "id").value]) else None
  }

  /** Reading one more entry of the account list. */
  lemma AdAccountIdsStep(items: seq<Json.Value>, k: nat, ids: seq<string>)
    requires k < |items| && AdAccountIds(items[..k]) == Some(ids)
    ensures AdAccountIds(items[..k + 1]) == AccountIdOf(items[k], ids)
  {
    assert items[..k + 1][..k] == items[..k];
  }

  /** The callback's loop after one more ad account is the upsert of that account after the loop so far. */
  lemma ConnectAllStep(accounts: seq<FacebookAccount>, userId: int, ids: seq<string>, id: string, token: string,
                       expiresAt: Option<Instant>, now: Instant)
    ensures ConnectAll(accounts, userId, ids + [id], token, expiresAt, now) ==
      UpsertOAuth(ConnectAll(accounts, userId, ids, token, expiresAt, now), userId, id, token, expiresAt, now)
  {
    assert (ids + [id])[..|ids|] == ids;
  }

  predicate Truthy(s: Option<string>) {
    s.Some? && s.value != ""
  }

  /** `query(User).filter(User.id == id).first()` finds a row. */
  predicate HasUser(users: seq<User>, id: int) {
    exists u :: u in users && u.id == id
  }

  /** The text of a dict entry, when it is text. */
  function TextField(fields: map<string, Json.Value>, key: string): Option<string> {
    var v := Json.GetOr(fields, key, Json.Null);
    if v.Str? then Some(v.s) else None
  }

  /** The callback gets as far as the code exchange: no provider error, a code, and a state naming a stored user. */
  predicate ReachesExchange(users: seq<User>, code: Option<string>, state: Option<string>, error: Option<string>) {
    && !Truthy(error) && Truthy(code) && IdentifiesUser(DecodeState(state))
    && HasUser(users, DecodeState(state).value.userId.value)
  }

  /** The code exchange answered with a dict holding a truthy short-lived token. */
  predicate ShortLivedToken(tokenReply: Result<Json.Value, RequestError>) {
    && tokenReply.Success? && tokenReply.value.Obj?
    && Json.Truthy(Json.GetOr(tokenReply.value.fields, "access_token", Json.Null))
  }

  /**
    What the callback does from the code exchange on, for user `userId`, taking the credentials
    from `before` to `after`, case by case in the order the handler checks the replies: a failed
    or non-dict exchange fails, a falsy short-lived token is a failed exchange, and with a
    short-lived token the rest is `Connects`.
   */
  ghost predicate Exchanged(before: seq<FacebookAccount>, after: seq<FacebookAccount>, userId: int,
                            tokenReply: Result<Json.Value, RequestError>, extendReply: Result<Json.Value, RequestError>,
                            accountsReply: Result<Json.Value, RequestError>, now: Instant, outcome: CallbackOutcome)
  {
    if tokenReply.Failure? || !tokenReply.value.Obj? then outcome == Failed && after == before
    else if !ShortLivedToken(tokenReply) then outcome == TokenExchangeFailed && after == before
    else Connects(before, after, userId, extendReply, accountsReply, now, outcome)
  }

  /**
    The callback after a good code exchange: an unreadable extension or account listing fails, a
    falsy `data` is reported as no ad accounts, a listing that is not a list of dicts with text ids
    (or a long-lived token that is missing) fails, and otherwise every listed ad account is stored,
    in listing order, with the long-lived token and the expiry computed from the extension reply.
    Only a connection changes the credentials.
   */
  ghost predicate Connects(before: seq<FacebookAccount>, after: seq<FacebookAccount>, userId: int,
                           extendReply: Result<Json.Value, RequestError>, accountsReply: Result<Json.Value, RequestError>,
                           now: Instant, outcome: CallbackOutcome)
  {
    if !ExtensionReads(extendReply) then outcome == Failed && after == before
    else if accountsReply.Failure? || !accountsReply.value.Obj? then outcome == Failed && after == before
    else
      var data := Json.GetOr(accountsReply.value.fields, "data", Json.Arr([]));
      var longLived := TextField(extendReply.value.fields, "access_token");
      if !Json.Truthy(data) then outcome == NoAdAccounts && after == before
      else if !data.Arr? || longLived.None? || AdAccountIds(data.items).None? then outcome == Failed && after == before
      else
        && outcome.Connected?
        && longLived == Some(outcome.token)
        && (ExpiresInKey !in extendReply.value.fields ==> outcome.expiresAt == now + DefaultLifetime as real)
        && (ExpiresInKey in extendReply.value.fields ==>
              Seconds(extendReply.value.fields[ExpiresInKey]) == Some(outcome.expiresAt - now))
        && AdAccountIds(data.items) == Some(outcome.stored) && |outcome.stored| > 0
        && after == ConnectAll(before, userId, outcome.stored, outcome.token, Some(outcome.expiresAt), now)
  }

  /** The level and both dates are valid: what the insights fetch checks before looking up a credential. */
  predicate Admitted(level: string, since: string, until: string) {
    ParseLevel(level).Some? && ParseDate(since).Some? && ParseDate(until).Some?
  }

  class Store {
    var users: seq<User>
    var accounts: seq<FacebookAccount>
    var snapshots: seq<MetricSnapshot>

    /** The constraints of the three tables, and the one-credential-per-pair rule the writers keep. */
    ghost predicate Valid()
      reads this
    {
      && UniqueEmails(users)
      && OneCredentialPerPair(accounts) && SequentialAccountIds(accounts)
      && UniqueKeys(snapshots) && SequentialSnapshotIds(snapshots)
    }

    constructor ()
      ensures Valid() && users == [] && accounts == [] && snapshots == []
    {
      users, accounts, snapshots := [], [], [];
    }

    /**
      `POST /act/{ad_account_id}/fetch_insights`: validate the level, then the dates, then find
      the caller's credential, then check its expiry, all before any request; then fetch every
      page and ingest the records one by one, each committed on its own.
     */
    method FetchInsights(userId: int, adAccountId: string, since: string, until: string, level: string,
                         replies: seq<PageReply>, now: Instant)
      returns (r: Result<FetchInsightsResponse, HttpException>, requests: seq<Request>)
      requires Valid() && Ends(replies)
      modifies this
      ensures Valid() && users == old(users) && accounts == old(accounts)
      ensures ParseLevel(level).None? ==> r == Failure(BadRequest) && requests == [] && snapshots == old(snapshots)
      ensures ParseLevel(level).Some? && (ParseDate(since).None? || ParseDate(until).None?) ==>
        r == Failure(BadRequest) && requests == [] && snapshots == old(snapshots)
      ensures (Admitted(level, since, until) && FirstCredential(accounts, userId, adAccountId).None?) ==>
        r == Failure(NotFound) && requests == [] && snapshots == old(snapshots)
      ensures (Admitted(level, since, until) && FirstCredential(accounts, userId, adAccountId).Some?
               && TokenExpired(accounts[FirstCredential(accounts, userId, adAccountId).value], now)) ==>
        r == Failure(Unauthorized) && requests == [] && snapshots == old(snapshots)
      ensures (Admitted(level, since, until) && FirstCredential(accounts, userId, adAccountId).Some?
               && !TokenExpired(accounts[FirstCredential(accounts, userId, adAccountId).value], now)) ==>
        var account := accounts[FirstCredential(accounts, userId, adAccountId).value];
        var l := ParseLevel(level).value;
        && requests == PlannedRequests(adAccountId, since, until, level, InsightFields(l), account.accessToken, replies, StopIndex(replies) + 1)
        && (FetchedRecords(replies).Failure? ==> r == Failure(InternalError) && snapshots == old(snapshots))
        && (FetchedRecords(replies).Success? ==>
              var run := IngestAll(old(snapshots), account.id, l, adAccountId, FetchedRecords(replies).value, now);
              && snapshots == run.rows
              && r == if run.aborted then Failure(InternalError) else Success(NewFetchInsightsResponse(run.ingested, run.skipped)))
    {
      requests := [];
      var l := ParseLevel(level);
      if l.None? {
        return Failure(BadRequest), requests;
      }
      var sinceDate := ParseDate(since);
      var untilDate := ParseDate(until);
      if sinceDate.None? || untilDate.None? {
        return Failure(BadRequest), requests;
      }
      var found := FirstCredential(accounts, userId, adAccountId);
      if found.None? {
        return Failure(NotFound), requests;
      }
      var account := accounts[found.value];
      if account.expiresAt.Some? && account.expiresAt.value < now {
        return Failure(Unauthorized), requests;
      }
      var fetched;
      fetched, requests := GetAllInsightsPages(adAccountId, since, until, level, InsightFields(l.value), account.accessToken, replies);
      if fetched.Failure? {
        return Failure(InternalError), requests;
      }
      var aborted, rowsIngested, rowsSkipped := IngestRecords(account.id, l.value, adAccountId, fetched.value, now);
      if aborted {
        return Failure(InternalError), requests;
      }
      r := Success(NewFetchInsightsResponse(rowsIngested, rowsSkipped));
    }

    /**
      The ingest loop of the insights fetch: each record is read, then skipped or inserted and
      committed on its own; a record that cannot be read stops the loop, keeping what was committed.
     */
    method IngestRecords(accountId: int, level: Level, adAccountId: string, records: seq<Json.Value>, now: Instant)
      returns (aborted: bool, rowsIngested: nat, rowsSkipped: nat)
      requires Valid()
      modifies this
      ensures Valid() && users == old(users) && accounts == old(accounts)
      ensures IngestAll(old(snapshots), accountId, level, adAccountId, records, now) ==
        Run(snapshots, rowsIngested, rowsSkipped, aborted)
    {
      ghost var table := snapshots;
      rowsIngested, rowsSkipped, aborted := 0, 0, false;
      var k := 0;
      while k < |records| && !aborted
        invariant k <= |records| && users == old(users) && accounts == old(accounts)
        invariant IngestAll(table, accountId, level, adAccountId, records[..k], now) == Run(snapshots, rowsIngested, rowsSkipped, aborted)
      {
        IngestAllStep(table, accountId, level, adAccountId, records, k, now);
        IngestStepShift(snapshots, rowsIngested, rowsSkipped, accountId, level, adAccountId, records[k], now);
        var ok, inserted := IngestOne(accountId, level, adAccountId, records[k], now);
        if !ok {
          aborted := true;
        } else if inserted {
          rowsIngested := rowsIngested + 1;
        } else {
          rowsSkipped := rowsSkipped + 1;
        }
        k := k + 1;
      }
      IngestFinish(table, accountId, level, adAccountId, records, k, now);
    }

    /**
      One record of the ingest loop: read it, then skip it, or add and commit its row, or roll
      back on a duplicate key. `ok` is false when reading it raised, which ends the loop.
     */
    method IngestOne(accountId: int, level: Level, adAccountId: string, record: Json.Value, now: Instant)
      returns (ok: bool, inserted: bool)
      modifies this
      ensures users == old(users) && accounts == old(accounts)
      ensures IngestStep(Run(old(snapshots), 0, 0, false), accountId, level, adAccountId, record, now) ==
        Run(snapshots, if ok && inserted then 1 else 0, if ok && !inserted then 1 else 0, !ok)
    {
      var n := ReadRecord(record, level, adAccountId);
      if n.Failure? {
        return false, false;
      }
      var row := n.value;
      if row.NoStartDate? || row.entityId.None? {
        return true, false;
      }
      var metric := SnapshotOf(snapshots, accountId, level, row, row.entityId.value, now);
      if HasKey(snapshots, Key(metric)) {
        return true, false;  // IntegrityError: rolled back, counted as skipped
      }
      snapshots := snapshots + [metric];
      return true, true;
    }

    /**
      `GET /oauth/callback`: checks in the order the handler makes them, then one upsert per
      listed ad account with the long-lived token and its expiry, committed together; any
      exception inside the handler's `try` rolls the whole loop back.
     */
    method OAuthCallback(code: Option<string>, state: Option<string>, error: Option<string>,
                         tokenReply: Result<Json.Value, RequestError>, extendReply: Result<Json.Value, RequestError>,
                         accountsReply: Result<Json.Value, RequestError>, now: Instant)
      returns (outcome: CallbackOutcome)
      requires Valid()
      modifies this
      ensures Valid() && users == old(users) && snapshots == old(snapshots)
      ensures Truthy(error) ==> outcome == ProviderError
      ensures !Truthy(error) && !Truthy(code) ==> outcome == NoCode
      ensures (!Truthy(error) && Truthy(code) && DecodeState(state).Failure?) ==> outcome == Failed
      ensures (!Truthy(error) && Truthy(code) && DecodeState(state).Success? && !IdentifiesUser(DecodeState(state))) ==>
        outcome == InvalidState
      ensures (!Truthy(error) && Truthy(code) && IdentifiesUser(DecodeState(state))
               && !HasUser(users, DecodeState(state).value.userId.value)) ==> outcome == UserNotFound
      ensures !ReachesExchange(users, code, state, error) ==> accounts == old(accounts) && !outcome.Connected?
      ensures ReachesExchange(users, code, state, error) ==>
        Exchanged(old(accounts), accounts, DecodeState(state).value.userId.value, tokenReply, extendReply, accountsReply, now, outcome)
    {
      if Truthy(error) {
        return ProviderError;
      }
      if !Truthy(code) {
        return NoCode;
      }
      var parsed := ParseState(state);
      if parsed.Failure? {
        return Failed;
      }
      if parsed.value.userId.None? || parsed.value.userId.value == 0 {
        return InvalidState;
      }
      var userId := parsed.value.userId.value;
      if !(exists u :: u in users && u.id == userId) {
        return UserNotFound;
      }
      outcome := ConnectUser(userId, tokenReply, extendReply, accountsReply, now);
    }

    /**
      The callback from the code exchange on, for a user it has identified: exchange the code,
      extend the token, list the ad accounts and store a credential for each.
     */
    method ConnectUser(userId: int, tokenReply: Result<Json.Value, RequestError>, extendReply: Result<Json.Value, RequestError>,
                       accountsReply: Result<Json.Value, RequestError>, now: Instant)
      returns (outcome: CallbackOutcome)
      requires Valid()
      modifies this
      ensures Valid() && users == old(users) && snapshots == old(snapshots)
      ensures Exchanged(old(accounts), accounts, userId, tokenReply, extendReply, accountsReply, now, outcome)
    {
      if tokenReply.Failure? || !tokenReply.value.Obj? {
        return Failed;
      }
      if !Json.Truthy(Json.GetOr(tokenReply.value.fields, "access_token", Json.Null)) {
        return TokenExchangeFailed;
      }
      outcome := ConnectAccounts(userId, extendReply, accountsReply, now);
    }

    /** The callback after a good code exchange: extend the token, list the ad accounts, store them. */
    method ConnectAccounts(userId: int, extendReply: Result<Json.Value, RequestError>,
                           accountsReply: Result<Json.Value, RequestError>, now: Instant)
      returns (outcome: CallbackOutcome)
      requires Valid()
      modifies this
      ensures Valid() && users == old(users) && snapshots == old(snapshots)
      ensures Connects(old(accounts), accounts, userId, extendReply, accountsReply, now, outcome)
    {
      var extended := ExtendToken(extendReply, now);
      if extended.Failure? {
        assert !ExtensionReads(extendReply);
        return Failed;
      }
      var longLived := TextField(extended.value.fields, "access_token");
      var expiresAt := extended.value.expiresAt;
      if accountsReply.Failure? || !accountsReply.value.Obj? {
        return Failed;
      }
      var adAccounts := Json.GetOr(accountsReply.value.fields, "data", Json.Arr([]));
      assert ExtensionReads(extendReply) && longLived == TextField(extendReply.value.fields, "access_token");
      if !Json.Truthy(adAccounts) {
        return NoAdAccounts;
      }
      if !adAccounts.Arr? || longLived.None? {
        return Failed;  // iterating a non-list, or storing a NULL token, raises
      }
      var stored := StoreAccounts(userId, adAccounts.items, longLived.value, expiresAt, now);
      if stored.None? {
        return Failed;
      }
      outcome := Connected(stored.value, longLived.value, expiresAt);
    }

    /**
      The callback's store loop: one upsert per listed ad account. An entry that is not a dict
      with a text `id` raises, and the rollback restores the credentials as they were.
     */
    method StoreAccounts(userId: int, items: seq<Json.Value>, token: string, expiresAt: Instant, now: Instant)
      returns (stored: Option<seq<string>>)
      requires Valid()
      modifies this
      ensures Valid() && users == old(users) && snapshots == old(snapshots)
      ensures stored == AdAccountIds(items)
      ensures stored.Some? ==> accounts == ConnectAll(old(accounts), userId, stored.value, token, Some(expiresAt), now)
      ensures stored.None? ==> accounts == old(accounts)
    {
      var saved := accounts;
      var ids: seq<string> := [];
      var k := 0;
      while k < |items|
        invariant k <= |items| && users == old(users) && snapshots == old(snapshots) && saved == old(accounts)
        invariant AdAccountIds(items[..k]) == Some(ids)
        invariant accounts == ConnectAll(saved, userId, ids, token, Some(expiresAt), now)
        invariant OneCredentialPerPair(accounts) && SequentialAccountIds(accounts)
      {
        var account := items[k];
        AdAccountIdsStep(items, k, ids);
        if !account.Obj? || TextField(account.fields, "id").None? {
          accounts := saved;  // db.rollback()
          AdAccountIdsPrefixFails(items, k + 1);
          return None;
        }
        var adAccountId := TextField(account.fields, "id").value;
        UpsertOAuthKeepsTable(accounts, userId, adAccountId, token, Some(expiresAt), now);
        ConnectAllStep(saved, userId, ids, adAccountId, token, Some(expiresAt), now);
        accounts := UpsertOAuth(accounts, userId, adAccountId, token, Some(expiresAt), now);
        ids := ids + [adAccountId];
        k := k + 1;
      }
      assert items[..k] == items;
      stored := Some(ids);
    }

    /**
      `POST /system_user/token`: a request body that fails validation is refused with 422; otherwise
      the caller's credential for the ad account becomes a non-expiring system-user token.
     */
    method InsertSystemUserToken(userId: int, adAccountId: string, accessToken: string, now: Instant)
      returns (r: Result<FacebookAccount, HttpException>)
      requires Valid()
      modifies this
      ensures Valid() && users == old(users) && snapshots == old(snapshots)
      ensures !IsAdAccountId(adAccountId) ==> r == Failure(Unprocessable) && accounts == old(accounts)
      ensures IsAdAccountId(adAccountId) ==>
        && accounts == UpsertSystem(old(accounts), userId, adAccountId, accessToken, now)
        && FirstCredential(accounts, userId, adAccountId).Some?
        && r == Success(accounts[FirstCredential(accounts, userId, adAccountId).value])
      ensures r.Success? ==>
        && r.value.userId == userId && r.value.adAccountId == adAccountId && r.value.accessToken == accessToken
        && r.value.isSystemUser && r.value.expiresAt == None
    {
      var request := ValidateSystemUserTokenRequest(adAccountId, accessToken);
      if request.Failure? {
        return Failure(Unprocessable);
      }
      UpsertSystemKeepsTable(accounts, userId, adAccountId, accessToken, now);
      accounts := UpsertSystem(accounts, userId, adAccountId, accessToken, now);
      r := Success(accounts[FirstCredential(accounts, userId, adAccountId).value]);
    }

    /**
      `GET /act/{ad_account_id}/insights_from_db`: the caller's snapshots of this ad account,
      filtered by the optional level and dates, newest first, one page of them with CTR and ROAS.
     */
    method GetInsightsFromDb(userId: int, adAccountId: string, limit: int, page: int,
                             level: Option<string>, since: Option<string>, until: Option<string>)
      returns (r: Result<MetricSnapshotListResponse, HttpException>)
      requires Valid()
      ensures Listed(accounts, snapshots, userId, adAccountId, limit, page, level, since, until, r)
    {
      if !ValidPaging(limit, page) {
        return Failure(Unprocessable);  // rejected by the query-parameter bounds
      }
      var found := FirstCredential(accounts, userId, adAccountId);
      if found.None? {
        return Failure(NotFound);
      }
      var accountId := accounts[found.value].id;
      var lv := if Truthy(level) then level else None;
      var lo: Option<Date> := None;
      if Truthy(since) {
        lo := ParseDate(since.value);
        if lo.None? {
          return Failure(BadRequest);
        }
      }
      var hi: Option<Date> := None;
      if Truthy(until) {
        hi := ParseDate(until.value);
        if hi.None? {
          return Failure(BadRequest);
        }
      }
      var response := QuerySnapshots(accountId, lv, lo, hi, page, limit);
      r := Success(response);
    }

    /**
      The query of the read endpoint: a condition built up by successive filters, evaluated once
      for the count and once for the page, newest first.
     */
    method QuerySnapshots(accountId: int, level: Option<string>, since: Option<Date>, until: Option<Date>, page: int, limit: int)
      returns (response: MetricSnapshotListResponse)
      requires ValidPaging(limit, page)
      ensures var rows := Filter(snapshots, s => Wanted(s, accountId, level, since, until));
        var shown := PageOf(SortByTsDesc(rows), page, limit);
        && response.total == |rows| && response.page == page && response.limit == limit
        && |response.items| == |shown|
        && (forall i :: 0 <= i < |shown| ==> response.items[i] == FromOrmWithComputed(shown[i]))
    {
      var query: MetricSnapshot -> bool := (s: MetricSnapshot) => s.facebookAccountId == accountId;
      if level.Some? {
        var prev := query;
        query := (s: MetricSnapshot) => prev(s) && LevelName(s.level) == level.value;
      }
      if since.Some? {
        var prev := query;
        var d := since.value;
        query := (s: MetricSnapshot) => prev(s) && NotAfter(d, s.ts);
      }
      if until.Some? {
        var prev := query;
        var d := until.value;
        query := (s: MetricSnapshot) => prev(s) && NotAfter(s.ts, d);
      }
      assert forall s :: query(s) == Wanted(s, accountId, level, since, until);
      FilterSame(snapshots, query, s => Wanted(s, accountId, level, since, until));
      var rows := Filter(snapshots, query);
      var shown := PageOf(SortByTsDesc(rows), page, limit);
      var items := seq(|shown|, i requires 0 <= i < |shown| => FromOrmWithComputed(shown[i]));
      response := MetricSnapshotListResponse(items, |rows|, page, limit);
    }
  }

  /**
    What the read endpoint answers: bad paging gives 422, an unknown ad account 404, an unreadable
    `since` and then `until` 400; otherwise `total` counts the account's rows that match the
    level and dates, and the items are the requested page of them, newest first, with CTR and ROAS.
   */
  ghost predicate Listed(accounts: seq<FacebookAccount>, snapshots: seq<MetricSnapshot>, userId: int, adAccountId: string,
                         limit: int, page: int, level: Option<string>, since: Option<string>, until: Option<string>,
                         r: Result<MetricSnapshotListResponse, HttpException>)
  {
    && (!ValidPaging(limit, page) ==> r == Failure(Unprocessable))
    && (ValidPaging(limit, page) && FirstCredential(accounts, userId, adAccountId).None? ==> r == Failure(NotFound))
    && ((ValidPaging(limit, page) && FirstCredential(accounts, userId, adAccountId).Some?) ==>
        && (Truthy(since) && ParseDate(since.value).None? ==> r == Failure(BadRequest))
        && (!(Truthy(since) && ParseDate(since.value).None?) && Truthy(until) && ParseDate(until.value).None? ==>
              r == Failure(BadRequest)))
    && (r.Success? ==>
        && ValidPaging(limit, page) && FirstCredential(accounts, userId, adAccountId).Some?
        && var accountId := accounts[FirstCredential(accounts, userId, adAccountId).value].id;
           var lo := if Truthy(since) then ParseDate(since.value) else None;
           var hi := if Truthy(until) then ParseDate(until.value) else None;
           var lv := if Truthy(level) then level else None;
           var rows := Filter(snapshots, s => Wanted(s, accountId, lv, lo, hi));
           var shown := PageOf(SortByTsDesc(rows), page, limit);
           && (Truthy(since) ==> lo.Some?) && (Truthy(until) ==> hi.Some?)
           && r.value.total == |rows| && r.value.page == page && r.value.limit == limit
           && |r.value.items| == |shown|
           && (forall i :: 0 <= i < |shown| ==> r.value.items[i] == FromOrmWithComputed(shown[i])))
    && ((ValidPaging(limit, page) && FirstCredential(accounts, userId, adAccountId).Some?
         && !(Truthy(since) && ParseDate(since.value).None?)
         && !(Truthy(until) && ParseDate(until.value).None?)) ==> r.Success?)
  }

  /** The extension reply's `expires_in`, when present, is a whole number of seconds that is not negative. */
  predicate LifetimeNotNegative(extendReply: Result<Json.Value, RequestError>) {
    && extendReply.Success? && extendReply.value.Obj?
    && (ExpiresInKey in extendReply.value.fields ==>
          extendReply.value.fields[ExpiresInKey].Int? && extendReply.value.fields[ExpiresInKey].i >= 0)
  }

  /**
    After a connection whose extension gave a lifetime that is not negative, every listed ad
    account has a credential for the user that the insights fetch does not find expired at `now`.
   */
  lemma ConnectedCredentialsLive(before: seq<FacebookAccount>, after: seq<FacebookAccount>, userId: int,
                                 tokenReply: Result<Json.Value, RequestError>, extendReply: Result<Json.Value, RequestError>,
                                 accountsReply: Result<Json.Value, RequestError>, now: Instant, outcome: CallbackOutcome)
    requires Exchanged(before, after, userId, tokenReply, extendReply, accountsReply, now, outcome)
    requires outcome.Connected? && LifetimeNotNegative(extendReply)
    ensures forall k :: 0 <= k < |outcome.stored| ==>
      && FirstCredential(after, userId, outcome.stored[k]).Some?
      && after[FirstCredential(after, userId, outcome.stored[k]).value].accessToken == outcome.token
      && !TokenExpired(after[FirstCredential(after, userId, outcome.stored[k]).value], now)
  {
    assert outcome.expiresAt >= now;
    ConnectAllStoresEach(before, userId, outcome.stored, outcome.token, Some(outcome.expiresAt), now);
  }


  /** Filtering by two conditions that agree on every row gives the same rows. */
  lemma {:induction false} FilterSame(rows: seq<MetricSnapshot>, p: MetricSnapshot -> bool, q: MetricSnapshot -> bool)
    requires forall x :: p(x) == q(x)
    ensures Filter(rows, p) == Filter(rows, q)
  {
    if |rows| > 0 {
      FilterSame(rows[..|rows| - 1], p, q);
    }
  }

  /** Once an entry of the account list is unreadable, no longer list is readable either. */
  lemma {:induction false} AdAccountIdsPrefixFails(items: seq<Json.Value>, k: nat)
    requires k <= |items| && AdAccountIds(items[..k]).None?
    ensures AdAccountIds(items).None?
    decreases |items| - k
  {
    if k < |items| {
      assert items[..k + 1][..k] == items[..k];
      AdAccountIdsPrefixFails(items, k + 1);
    } else {
      assert items[..k] == items;
    }
  }
}
