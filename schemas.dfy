/**
  The request and response shapes of `app/schemas.py`: the field constraints pydantic enforces
  on input, and the response records with their defaults and computed fields.
 */
module Schemas {
  import opened Wrappers
  import opened Text
  import opened Dates
  import opened Models
  import opened Utils

  /** A request body pydantic rejected; FastAPI answers 422 and the handler never runs. */
  datatype ValidationError = ValidationError(field: string)

  datatype UserCreate = UserCreate(email: string, password: string)

  /** `UserCreate`: the password must have at least six characters (the e-mail check is not modelled). */
  function ValidateUserCreate(email: string, password: string): (r: Result<UserCreate, ValidationError>)
    ensures r.Success? <==> |password| >= 6
    ensures r.Success? ==> r.value == UserCreate(email, password)
    ensures r.Failure? ==> r.error.field == "password"
  {
    if |password| >= 6 then Success(UserCreate(email, password)) else Failure(ValidationError("password"))
  }

  datatype SystemUserTokenRequest = SystemUserTokenRequest(adAccountId: string, accessToken: string)

  /** The pattern `^act_\d+$`. */
  predicate IsAdAccountId(s: string) {
    |s| > 4 && s[..4] == "act_" && AllDigits(s[4..])
  }

  /** The accepted ad account ids are exactly "act_" followed by a non-empty run of digits. */
  lemma AdAccountIdShape(s: string)
    ensures IsAdAccountId(s) <==> exists d :: d != "" && AllDigits(d) && s == "act_" + d
  {
    if IsAdAccountId(s) {
      assert s == "act_" + s[4..];
    }
    if exists d :: d != "" && AllDigits(d) && s == "act_" + d {
      var d :| d != "" && AllDigits(d) && s == "act_" + d;
      assert s[..4] == "act_" && s[4..] == d;
    }
  }

  /** Every numeric account number written after "act_" is accepted. */
  lemma NumberedAccountAccepted(n: nat)
    ensures IsAdAccountId("act_" + NatToString(n))
  {
    var s := "act_" + NatToString(n);
    assert s[..4] == "act_" && s[4..] == NatToString(n);
  }

  /** `SystemUserTokenRequest`: the ad account id must match `^act_\d+$`. */
  function ValidateSystemUserTokenRequest(adAccountId: string, accessToken: string): (r: Result<SystemUserTokenRequest, ValidationError>)
    ensures r.Success? <==> IsAdAccountId(adAccountId)
    ensures r.Success? ==> r.value == SystemUserTokenRequest(adAccountId, accessToken)
  {
    if IsAdAccountId(adAccountId) then Success(SystemUserTokenRequest(adAccountId, accessToken))
    else Failure(ValidationError("ad_account_id"))
  }

  datatype FetchInsightsResponse = FetchInsightsResponse(rowsIngested: int, rowsSkipped: int, nextCursor: Option<string>, status: string)

  /** `FetchInsightsResponse(rows_ingested=..., rows_skipped=...)` with its defaults. */
  function NewFetchInsightsResponse(ingested: int, skipped: int): (r: FetchInsightsResponse)
    ensures r.rowsIngested == ingested && r.rowsSkipped == skipped
    ensures r.nextCursor == None && r.status == "success"
  {
    FetchInsightsResponse(ingested, skipped, None, "success")
  }

  datatype MetricSnapshotResponse = MetricSnapshotResponse(
    id: int,
    ts: Date,
    level: Level,
    entityId: string,
    impressions: int,
    clicks: int,
    spend: real,
    conversions: int,
    revenue: real,
    ctr: real,
    roas: real,
    createdAt: Instant)

  /** `MetricSnapshotResponse.from_orm_with_computed(obj)`: the stored columns plus CTR and ROAS. */
  function FromOrmWithComputed(obj: MetricSnapshot): (r: MetricSnapshotResponse)
    ensures r.id == obj.id && r.ts == obj.ts && r.level == obj.level && r.entityId == obj.entityId
    ensures r.impressions == obj.impressions && r.clicks == obj.clicks && r.spend == obj.spend
    ensures r.conversions == obj.conversions && r.revenue == obj.revenue && r.createdAt == obj.createdAt
    ensures obj.impressions <= 0 ==> r.ctr == 0.0
    ensures obj.spend <= 0.0 ==> r.roas == 0.0
  {
    var ctr := if obj.impressions > 0 then obj.clicks as real / obj.impressions as real * 100.0 else 0.0;
    var roas := if obj.spend > 0.0 then obj.revenue / obj.spend else 0.0;
    MetricSnapshotResponse(obj.id, obj.ts, obj.level, obj.entityId, obj.impressions, obj.clicks, obj.spend,
                           obj.conversions, obj.revenue, Round2(ctr), Round2(roas), obj.createdAt)
  }

  /**
    On the values the pipeline stores (no negative impressions or spend) the response's CTR and
    ROAS are those of `calculate_ctr` and `calculate_roas`, although the guards differ
    (`> 0` here, `== 0` there).
   */
  lemma ComputedFieldsMatchUtils(obj: MetricSnapshot)
    requires 0 <= obj.impressions && 0.0 <= obj.spend
    ensures FromOrmWithComputed(obj).ctr == CalculateCtr(obj.clicks, obj.impressions)
    ensures FromOrmWithComputed(obj).roas == CalculateRoas(obj.revenue, obj.spend)
  {
    assert Round2(0.0) == 0.0;
  }

  /** With a negative spend the two guards part: the response reports 0 where `calculate_roas` reports -1. */
  lemma RoasGuardsDifferOnNegativeSpend(obj: MetricSnapshot)
    requires obj.spend == -1.0 && obj.revenue == 1.0
    ensures FromOrmWithComputed(obj).roas == 0.0
    ensures CalculateRoas(obj.revenue, obj.spend) == -1.0
  {
    assert Round2(0.0) == 0.0;
    assert (-1.0 / 1.0 * 100.0 + 0.5).Floor == -100;
  }

  /** 50 clicks on 1000 impressions give a CTR of 5.0; 500 revenue on 100 spend a ROAS of 5.0. */
  lemma ComputedFieldsExample(obj: MetricSnapshot)
    requires obj.impressions == 1000 && obj.clicks == 50 && obj.spend == 100.0 && obj.revenue == 500.0
    ensures FromOrmWithComputed(obj).ctr == 5.0 && FromOrmWithComputed(obj).roas == 5.0
  {
    assert (50.0 / 1000.0 * 100.0 * 100.0 + 0.5).Floor == 500;
    assert (500.0 / 100.0 * 100.0 + 0.5).Floor == 500;
  }

  /** A snapshot left at its column defaults reads back with CTR and ROAS 0. */
  lemma DefaultSnapshotRatios(id: int, facebookAccountId: int, ts: Date, level: Level, entityId: string, now: Instant)
    ensures var r := FromOrmWithComputed(DefaultSnapshot(id, facebookAccountId, ts, level, entityId, now));
            r.ctr == 0.0 && r.roas == 0.0 && r.impressions == 0
  {
  }

  datatype MetricSnapshotListResponse = MetricSnapshotListResponse(items: seq<MetricSnapshotResponse>, total: int, page: int, limit: int)
}
