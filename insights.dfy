/**
  The body of the insights ingestion: how one Graph API record becomes a snapshot row (or a
  skip, or the error that aborts the run), and what a run over a list of records does to the
  snapshot table and to the two counters it reports.
 */
module Insights {
  import opened Wrappers
  import opened Text
  import opened Dates
  import opened Models
  import Json

  /** Why a run stops: the records are read with Python operations that raise on unexpected shapes. */
  datatype IngestError =
    | NotAnObject            // `insight.get` on something that is not a dict
    | BadDate                // `strptime` on a non-string, or on text that is not a `%Y-%m-%d` date
    | BadCounter(field: string)  // `int(...)` / `float(...)` raised, or the array could not be iterated
    | BadEntityId            // an entity id the string column cannot hold

  /** One record, read: skipped for want of a start date, or the columns of a row to insert. */
  datatype Normalized =
    | NoStartDate
    | Row(ts: Date, entityId: Option<string>, impressions: int, clicks: int, spend: real,
          conversions: int, revenue: real, raw: Json.Value)

  /** The fields requested from the Graph API: the counters, then the id (and name) of the level's entity. */
  function InsightFields(level: Level): (fields: seq<string>)
    ensures |fields| >= 8
    ensures fields[..7] == ["date_start", "date_stop", "impressions", "clicks", "spend", "actions", "action_values"]
    ensures fields[7] == EntityIdKey(level)
  {
    var common := ["date_start", "date_stop", "impressions", "clicks", "spend", "actions", "action_values"];
    match level
    case Campaign => common + ["campaign_id", "campaign_name"]
    case Adset => common + ["adset_id", "adset_name"]
    case Ad => common + ["ad_id", "ad_name"]
    case Account => common + ["account_id"]
  }

  /** The record key holding the entity id at each level. */
  function EntityIdKey(level: Level): string {
    match level
    case Campaign => "campaign_id"
    case Adset => "adset_id"
    case Ad => "ad_id"
    case Account => "account_id"
  }

  /** The entity id used when the record lacks the key: the requested ad account at account level, else "unknown". */
  function EntityIdDefault(level: Level, adAccountId: string): string {
    if level == Account then adAccountId else "unknown"
  }

  /**
    The entity id stored: the record's value for the level's key, or the default when the key
    is absent. A JSON null is kept as None: the NOT NULL column refuses it when the row is inserted.
   */
  function EntityId(fields: map<string, Json.Value>, level: Level, adAccountId: string): (r: Result<Option<string>, IngestError>)
    ensures EntityIdKey(level) !in fields ==> r == Success(Some(EntityIdDefault(level, adAccountId)))
    ensures EntityIdKey(level) in fields && fields[EntityIdKey(level)].Str? ==>
      r == Success(Some(fields[EntityIdKey(level)].s))
    ensures r.Failure? <==> EntityIdKey(level) in fields && !fields[EntityIdKey(level)].Str? && !fields[EntityIdKey(level)].Null?
  {
    match Json.GetOr(fields, EntityIdKey(level), Json.Str(EntityIdDefault(level, adAccountId)))
    case Str(s) => Success(Some(s))
    case Null => Success(None)
    case _ => Failure(BadEntityId)
  }

  /** `for x in v`, for an array field whose entries must then be dicts: None when iterating raises or yields no dicts. */
  function ActionEntries(v: Json.Value): (r: Option<seq<Json.Value>>)
    ensures v.Arr? ==> r == Some(v.items)
    ensures v.Null? || v.Int? || v.Float? || v.Bool? ==> r.None?
  {
    match v
    case Arr(items) => Some(items)
    case Str(s) => if s == "" then Some([]) else None      // a character is not a dict
    case Obj(f) => if f == map[] then Some([]) else None   // a key is not a dict
    case _ => None
  }

  const PurchaseTypes := [Json.Str("purchase"), Json.Str("offsite_conversion.fb_pixel_purchase")]

  /** The entry's `action_type` is one of the two purchase types. */
  predicate IsPurchase(entry: map<string, Json.Value>) {
    Json.GetOr(entry, "action_type", Json.Null) in PurchaseTypes
  }

  /** Conversions: the sum of `int(value)` over the purchase entries; None when an entry is not a dict or a value is not an integer. */
  function PurchaseCount(entries: seq<Json.Value>): Option<int> {
    if |entries| == 0 then Some(0)
    else
      match PurchaseCount(entries[..|entries| - 1])
      case None => None
      case Some(c) =>
        var e := entries[|entries| - 1];
        if !e.Obj? then None
        else if !IsPurchase(e.fields) then Some(c)
        else
          match Json.ToInt(Json.GetOr(e.fields, "value", Json.Int(0)))
          case None => None
          case Some(v) => Some(c + v)
  }

  /** Revenue: the sum of `float(value)` over the purchase entries; None when an entry is not a dict or a value is not a number. */
  function PurchaseValue(entries: seq<Json.Value>): Option<real> {
    if |entries| == 0 then Some(0.0)
    else
      match PurchaseValue(entries[..|entries| - 1])
      case None => None
      case Some(c) =>
        var e := entries[|entries| - 1];
        if !e.Obj? then None
        else if !IsPurchase(e.fields) then Some(c)
        else
          match Json.ToFloat(Json.GetOr(e.fields, "value", Json.Float(0.0)))
          case None => None
          case Some(v) => Some(c + v)
  }

  /** Once a prefix of the entries fails, the whole count fails. */
  lemma {:induction false} CountFailureSticks(entries: seq<Json.Value>, k: nat)
    requires k <= |entries| && PurchaseCount(entries[..k]).None?
    ensures PurchaseCount(entries).None?
    decreases |entries| - k
  {
    if k < |entries| {
      assert entries[..k + 1][..k] == entries[..k];
      CountFailureSticks(entries, k + 1);
    } else {
      assert entries[..k] == entries;
    }
  }

  lemma {:induction false} ValueFailureSticks(entries: seq<Json.Value>, k: nat)
    requires k <= |entries| && PurchaseValue(entries[..k]).None?
    ensures PurchaseValue(entries).None?
    decreases |entries| - k
  {
    if k < |entries| {
      assert entries[..k + 1][..k] == entries[..k];
      ValueFailureSticks(entries, k + 1);
    } else {
      assert entries[..k] == entries;
    }
  }

  /** The conversions loop: `conversions += int(action.get("value", 0))` for every purchase entry. */
  method SumConversions(entries: seq<Json.Value>) returns (r: Option<int>)
    ensures r == PurchaseCount(entries)
  {
    var conversions := 0;
    var k := 0;
    while k < |entries|
      invariant k <= |entries|
      invariant PurchaseCount(entries[..k]) == Some(conversions)
    {
      var action := entries[k];
      assert entries[..k + 1][..k] == entries[..k];
      if !action.Obj? {
        CountFailureSticks(entries, k + 1);
        return None;
      }
      if IsPurchase(action.fields) {
        var value := Json.ToInt(Json.GetOr(action.fields, "value", Json.Int(0)));
        if value.None? {
          CountFailureSticks(entries, k + 1);
          return None;
        }
        conversions := conversions + value.value;
      }
      k := k + 1;
    }
    assert entries[..k] == entries;
    r := Some(conversions);
  }

  /** The revenue loop: `revenue += float(action_value.get("value", 0.0))` for every purchase entry. */
  method SumRevenue(entries: seq<Json.Value>) returns (r: Option<real>)
    ensures r == PurchaseValue(entries)
  {
    var revenue := 0.0;
    var k := 0;
    while k < |entries|
      invariant k <= |entries|
      invariant PurchaseValue(entries[..k]) == Some(revenue)
    {
      var actionValue := entries[k];
      assert entries[..k + 1][..k] == entries[..k];
      if !actionValue.Obj? {
        ValueFailureSticks(entries, k + 1);
        return None;
      }
      if IsPurchase(actionValue.fields) {
        var value := Json.ToFloat(Json.GetOr(actionValue.fields, "value", Json.Float(0.0)));
        if value.None? {
          ValueFailureSticks(entries, k + 1);
          return None;
        }
        revenue := revenue + value.value;
      }
      k := k + 1;
    }
    assert entries[..k] == entries;
    r := Some(revenue);
  }

  /** The entries that take part in the sums: every dict that is a purchase, and anything that is not a dict (which raises). */
  function Counted(entries: seq<Json.Value>): (r: seq<Json.Value>)
    ensures |r| <= |entries|
    ensures forall x :: x in r <==> x in entries && !(x.Obj? && !IsPurchase(x.fields))
  {
    if |entries| == 0 then []
    else
      var e := entries[|entries| - 1];
      assert entries == entries[..|entries| - 1] + [e];
      Counted(entries[..|entries| - 1]) + (if e.Obj? && !IsPurchase(e.fields) then [] else [e])
  }

  /** An entry that is a dict of another action type adds nothing to either sum. */
  lemma OtherActionAddsNothing(init: seq<Json.Value>, e: Json.Value)
    requires e.Obj? && !IsPurchase(e.fields)
    ensures PurchaseCount(init + [e]) == PurchaseCount(init)
    ensures PurchaseValue(init + [e]) == PurchaseValue(init)
    ensures Counted(init + [e]) == Counted(init)
  {
    assert (init + [e])[..|init|] == init;
  }

  /** Any other entry is kept by `Counted`. */
  lemma CountedKeeps(init: seq<Json.Value>, e: Json.Value)
    requires !(e.Obj? && !IsPurchase(e.fields))
    ensures Counted(init + [e]) == Counted(init) + [e]
  {
    assert (init + [e])[..|init|] == init;
  }

  /** Two arrays with the same sums still have the same sums once the same entry is appended to both. */
  lemma SameSumsAppend(a: seq<Json.Value>, b: seq<Json.Value>, e: Json.Value)
    ensures PurchaseCount(a) == PurchaseCount(b) ==> PurchaseCount(a + [e]) == PurchaseCount(b + [e])
    ensures PurchaseValue(a) == PurchaseValue(b) ==> PurchaseValue(a + [e]) == PurchaseValue(b + [e])
  {
    var a', b' := a + [e], b + [e];
    assert a'[..|a'| - 1] == a && a'[|a'| - 1] == e;
    assert b'[..|b'| - 1] == b && b'[|b'| - 1] == e;
  }

  /** Entries of any other action type are ignored: dropping them leaves the conversions unchanged. */
  lemma {:induction false} OtherActionsIgnoredInCount(entries: seq<Json.Value>)
    ensures PurchaseCount(entries) == PurchaseCount(Counted(entries))
  {
    if |entries| > 0 {
      var init := entries[..|entries| - 1];
      var e := entries[|entries| - 1];
      assert entries == init + [e];
      OtherActionsIgnoredInCount(init);
      if e.Obj? && !IsPurchase(e.fields) {
        OtherActionAddsNothing(init, e);
      } else {
        CountedKeeps(init, e);
        SameSumsAppend(init, Counted(init), e);
      }
    }
  }

  /** Entries of any other action type are ignored: dropping them leaves the revenue unchanged. */
  lemma {:induction false} OtherActionsIgnoredInValue(entries: seq<Json.Value>)
    ensures PurchaseValue(entries) == PurchaseValue(Counted(entries))
  {
    if |entries| > 0 {
      var init := entries[..|entries| - 1];
      var e := entries[|entries| - 1];
      assert entries == init + [e];
      OtherActionsIgnoredInValue(init);
      if e.Obj? && !IsPurchase(e.fields) {
        OtherActionAddsNothing(init, e);
      } else {
        CountedKeeps(init, e);
        SameSumsAppend(init, Counted(init), e);
      }
    }
  }

  /** The conversions of two arrays back to back are the sum of each array's conversions. */
  lemma {:induction false} PurchaseCountAppend(a: seq<Json.Value>, b: seq<Json.Value>)
    ensures PurchaseCount(a + b) ==
      if PurchaseCount(a).Some? && PurchaseCount(b).Some? then Some(PurchaseCount(a).value + PurchaseCount(b).value) else None
  {
    if |b| == 0 {
      assert a + b == a;
    } else {
      var init := b[..|b| - 1];
      assert (a + b)[..|a + b| - 1] == a + init;
      assert (a + b)[|a + b| - 1] == b[|b| - 1];
      PurchaseCountAppend(a, init);
      if PurchaseCount(a).None? {
        CountFailureSticks(a + b, |a|);
        assert (a + b)[..|a|] == a;
      }
    }
  }

  /** The conversions of a record: the purchase count of its `actions`, None when reading them raises. */
  function Conversions(f: map<string, Json.Value>): Option<int> {
    var actions := ActionEntries(Json.GetOr(f, "actions", Json.Arr([])));
    if actions.Some? then PurchaseCount(actions.value) else None
  }

  /** The revenue of a record: the purchase value of its `action_values`, None when reading them raises. */
  function Revenue(f: map<string, Json.Value>): Option<real> {
    var actionValues := ActionEntries(Json.GetOr(f, "action_values", Json.Arr([])));
    if actionValues.Some? then PurchaseValue(actionValues.value) else None
  }

  /** `date_start` is present, truthy, and reads as a `%Y-%m-%d` date. */
  predicate DateReads(f: map<string, Json.Value>) {
    var d := Json.GetOr(f, "date_start", Json.Null);
    d.Str? && ParseDate(d.s).Some?
  }

  /**
    `fetch_insights` on one record: a missing or empty `date_start` skips it; otherwise the date,
    the three counters, the purchase sums and the entity id are read in that order, and the first
    of them that fails aborts the run.
   */
  function Normalize(record: Json.Value, level: Level, adAccountId: string): (r: Result<Normalized, IngestError>)
    ensures !record.Obj? ==> r == Failure(NotAnObject)
    ensures r == Success(NoStartDate) <==> record.Obj? && !Json.Truthy(Json.GetOr(record.fields, "date_start", Json.Null))
    ensures record.Obj? && Json.Truthy(Json.GetOr(record.fields, "date_start", Json.Null)) && !DateReads(record.fields) ==>
      r == Failure(BadDate)
    ensures record.Obj? && DateReads(record.fields) ==>
      var f := record.fields;
      var impressions := Json.ToInt(Json.GetOr(f, "impressions", Json.Int(0)));
      var clicks := Json.ToInt(Json.GetOr(f, "clicks", Json.Int(0)));
      var spend := Json.ToFloat(Json.GetOr(f, "spend", Json.Float(0.0)));
      && (impressions.None? ==> r == Failure(BadCounter("impressions")))
      && (impressions.Some? && clicks.None? ==> r == Failure(BadCounter("clicks")))
      && (impressions.Some? && clicks.Some? && spend.None? ==> r == Failure(BadCounter("spend")))
      && (impressions.Some? && clicks.Some? && spend.Some? && Conversions(f).None? ==> r == Failure(BadCounter("actions")))
      && (impressions.Some? && clicks.Some? && spend.Some? && Conversions(f).Some? && Revenue(f).None? ==>
            r == Failure(BadCounter("action_values")))
      && ((impressions.Some? && clicks.Some? && spend.Some? && Conversions(f).Some? && Revenue(f).Some? &&
           EntityId(f, level, adAccountId).Failure?) ==> r == Failure(BadEntityId))
    ensures r.Success? && r.value.Row? ==>
      var f := record.fields;
      && "date_start" in f && f["date_start"].Str? && ParseDate(f["date_start"].s) == Some(r.value.ts)
      && Json.ToInt(Json.GetOr(f, "impressions", Json.Int(0))) == Some(r.value.impressions)
      && Json.ToInt(Json.GetOr(f, "clicks", Json.Int(0))) == Some(r.value.clicks)
      && Json.ToFloat(Json.GetOr(f, "spend", Json.Float(0.0))) == Some(r.value.spend)
      && Conversions(f) == Some(r.value.conversions) && Revenue(f) == Some(r.value.revenue)
      && EntityId(f, level, adAccountId) == Success(r.value.entityId)
      && r.value.raw == record
  {
    if !record.Obj? then Failure(NotAnObject)
    else
      var f := record.fields;
      var dateStart := Json.GetOr(f, "date_start", Json.Null);
      if !Json.Truthy(dateStart) then Success(NoStartDate)
      else if !dateStart.Str? || ParseDate(dateStart.s).None? then Failure(BadDate)
      else
        var ts := ParseDate(dateStart.s).value;
        var impressions := Json.ToInt(Json.GetOr(f, "impressions", Json.Int(0)));
        var clicks := Json.ToInt(Json.GetOr(f, "clicks", Json.Int(0)));
        var spend := Json.ToFloat(Json.GetOr(f, "spend", Json.Float(0.0)));
        if impressions.None? then Failure(BadCounter("impressions"))
        else if clicks.None? then Failure(BadCounter("clicks"))
        else if spend.None? then Failure(BadCounter("spend"))
        else
          var conversions := Conversions(f);
          if conversions.None? then Failure(BadCounter("actions"))
          else
            var revenue := Revenue(f);
            if revenue.None? then Failure(BadCounter("action_values"))
            else
              match EntityId(f, level, adAccountId)
              case Failure(e) => Failure(e)
              case Success(entityId) =>
                Success(Row(ts, entityId, impressions.value, clicks.value, spend.value,
                            conversions.value, revenue.value, record))
  }

  /** The body of the ingest loop up to the insert: the record read field by field, the sums by their loops. */
  method ReadRecord(record: Json.Value, level: Level, adAccountId: string) returns (r: Result<Normalized, IngestError>)
    ensures r == Normalize(record, level, adAccountId)
  {
    if !record.Obj? {
      return Failure(NotAnObject);
    }
    var insight := record.fields;
    var dateStart := Json.GetOr(insight, "date_start", Json.Null);
    if !Json.Truthy(dateStart) {
      return Success(NoStartDate);
    }
    if !dateStart.Str? || ParseDate(dateStart.s).None? {
      return Failure(BadDate);
    }
    var ts := ParseDate(dateStart.s).value;
    var impressions := Json.ToInt(Json.GetOr(insight, "impressions", Json.Int(0)));
    if impressions.None? {
      return Failure(BadCounter("impressions"));
    }
    var clicks := Json.ToInt(Json.GetOr(insight, "clicks", Json.Int(0)));
    if clicks.None? {
      return Failure(BadCounter("clicks"));
    }
    var spend := Json.ToFloat(Json.GetOr(insight, "spend", Json.Float(0.0)));
    if spend.None? {
      return Failure(BadCounter("spend"));
    }
    var actions := ActionEntries(Json.GetOr(insight, "actions", Json.Arr([])));
    if actions.None? {
      return Failure(BadCounter("actions"));
    }
    var conversions := SumConversions(actions.value);
    if conversions.None? {
      return Failure(BadCounter("actions"));
    }
    var actionValues := ActionEntries(Json.GetOr(insight, "action_values", Json.Arr([])));
    if actionValues.None? {
      return Failure(BadCounter("action_values"));
    }
    var revenue := SumRevenue(actionValues.value);
    if revenue.None? {
      return Failure(BadCounter("action_values"));
    }
    var entityId := EntityId(insight, level, adAccountId);
    if entityId.Failure? {
      return Failure(entityId.error);
    }
    r := Success(Row(ts, entityId.value, impressions.value, clicks.value, spend.value,
                     conversions.value, revenue.value, record));
  }

  /** Missing arrays of actions count as none: a record without them has no conversions and no revenue. */
  lemma MissingActionsCountZero(record: Json.Value, level: Level, adAccountId: string)
    requires record.Obj? && "actions" !in record.fields && "action_values" !in record.fields
    requires Normalize(record, level, adAccountId).Success?
    requires Normalize(record, level, adAccountId).value.Row?
    ensures Normalize(record, level, adAccountId).value.conversions == 0
    ensures Normalize(record, level, adAccountId).value.revenue == 0.0
  {
  }

  /** The state of a run: the table, the two counters, and whether an exception ended it. */
  datatype Run = Run(rows: seq<MetricSnapshot>, ingested: nat, skipped: nat, aborted: bool)

  /** The row the run adds for a normalised record: the next id, the creation time `now`. */
  function SnapshotOf(rows: seq<MetricSnapshot>, accountId: int, level: Level, n: Normalized, entityId: string, now: Instant): (s: MetricSnapshot)
    requires n.Row?
    ensures s.id == |rows| + 1 && Key(s) == SnapshotKey(accountId, n.ts, entityId, level)
    ensures s.impressions == n.impressions && s.clicks == n.clicks && s.spend == n.spend
    ensures s.conversions == n.conversions && s.revenue == n.revenue
    ensures s.raw == Some(n.raw) && s.createdAt == now
  {
    MetricSnapshot(|rows| + 1, accountId, n.ts, level, entityId, n.impressions, n.clicks, n.spend,
                   n.conversions, n.revenue, Some(n.raw), now)
  }

  /**
    One iteration of the ingest loop: an aborted run stays aborted; a record without a start date,
    with a null entity id or with a key already in the table is skipped; any other is inserted.
   */
  function IngestStep(run: Run, accountId: int, level: Level, adAccountId: string, record: Json.Value, now: Instant): (r: Run)
    ensures run.aborted ==> r == run
    ensures |r.rows| == |run.rows| + r.ingested - run.ingested && run.rows <= r.rows
    ensures !r.aborted ==>
      || (r.ingested == run.ingested + 1 && r.skipped == run.skipped && |r.rows| == |run.rows| + 1)
      || (r.ingested == run.ingested && r.skipped == run.skipped + 1 && r.rows == run.rows)
    ensures !run.aborted && Normalize(record, level, adAccountId).Failure? ==> r == run.(aborted := true)
    ensures !run.aborted && Covered(run.rows, accountId, level, adAccountId, record) ==>
      r == run.(skipped := run.skipped + 1)
    ensures !run.aborted && Normalize(record, level, adAccountId).Success? && !Covered(run.rows, accountId, level, adAccountId, record) ==>
      var n := Normalize(record, level, adAccountId).value;
      r == Run(run.rows + [SnapshotOf(run.rows, accountId, level, n, n.entityId.value, now)], run.ingested + 1, run.skipped, false)
  {
    if run.aborted then run
    else
      match Normalize(record, level, adAccountId)
      case Failure(_) => run.(aborted := true)
      case Success(n) =>
        if n.NoStartDate? || n.entityId.None? then run.(skipped := run.skipped + 1)
        else
          var s := SnapshotOf(run.rows, accountId, level, n, n.entityId.value, now);
          if HasKey(run.rows, Key(s)) then run.(skipped := run.skipped + 1)
          else Run(run.rows + [s], run.ingested + 1, run.skipped, false)
  }

  /** The run over the records in order, from the given table and zero counters. */
  function IngestAll(table: seq<MetricSnapshot>, accountId: int, level: Level, adAccountId: string,
                     records: seq<Json.Value>, now: Instant): Run
  {
    if |records| == 0 then Run(table, 0, 0, false)
    else IngestStep(IngestAll(table, accountId, level, adAccountId, records[..|records| - 1], now),
                    accountId, level, adAccountId, records[|records| - 1], now)
  }

  /**
    Every record bumps exactly one counter: a run that completes reports as many rows ingested
    and skipped as there were records; whether or not it completes, it only appends, exactly one
    row per record counted as ingested.
   */
  lemma {:induction false} IngestConservation(table: seq<MetricSnapshot>, accountId: int, level: Level, adAccountId: string,
                                               records: seq<Json.Value>, now: Instant)
    ensures var r := IngestAll(table, accountId, level, adAccountId, records, now);
      && (!r.aborted ==> r.ingested + r.skipped == |records|)
      && table <= r.rows && |r.rows| == |table| + r.ingested
  {
    if |records| > 0 {
      IngestConservation(table, accountId, level, adAccountId, records[..|records| - 1], now);
      var prev := IngestAll(table, accountId, level, adAccountId, records[..|records| - 1], now);
      if prev.aborted {
        assert IngestAll(table, accountId, level, adAccountId, records, now) == prev;
      }
    }
  }

  /** A step adds to the counters it is given: it can be computed from zero counters. */
  lemma IngestStepShift(rows: seq<MetricSnapshot>, ingested: nat, skipped: nat, accountId: int, level: Level,
                        adAccountId: string, record: Json.Value, now: Instant)
    ensures var z := IngestStep(Run(rows, 0, 0, false), accountId, level, adAccountId, record, now);
      IngestStep(Run(rows, ingested, skipped, false), accountId, level, adAccountId, record, now) ==
        Run(z.rows, z.ingested + ingested, z.skipped + skipped, z.aborted)
  {
  }

  /** The run over one more record is one more step of the run so far. */
  lemma IngestAllStep(table: seq<MetricSnapshot>, accountId: int, level: Level, adAccountId: string,
                      records: seq<Json.Value>, k: nat, now: Instant)
    requires k < |records|
    ensures IngestAll(table, accountId, level, adAccountId, records[..k + 1], now) ==
      IngestStep(IngestAll(table, accountId, level, adAccountId, records[..k], now), accountId, level, adAccountId, records[k], now)
  {
    assert records[..k + 1][..k] == records[..k];
  }

  /** Once a record aborts the run, the later records change nothing. */
  lemma {:induction false} AbortSticks(table: seq<MetricSnapshot>, accountId: int, level: Level, adAccountId: string,
                                        records: seq<Json.Value>, k: nat, now: Instant)
    requires k <= |records| && IngestAll(table, accountId, level, adAccountId, records[..k], now).aborted
    ensures IngestAll(table, accountId, level, adAccountId, records, now) ==
      IngestAll(table, accountId, level, adAccountId, records[..k], now)
    decreases |records| - k
  {
    if k < |records| {
      assert records[..k + 1][..k] == records[..k];
      AbortSticks(table, accountId, level, adAccountId, records, k + 1, now);
    } else {
      assert records[..k] == records;
    }
  }

  /**
    A run that has aborted, or has read every record, is the whole run, and the table it leaves
    still has unique keys and sequential ids.
   */
  lemma IngestFinish(table: seq<MetricSnapshot>, accountId: int, level: Level, adAccountId: string,
                     records: seq<Json.Value>, k: nat, now: Instant)
    requires UniqueKeys(table) && SequentialSnapshotIds(table)
    requires k <= |records|
    requires k == |records| || IngestAll(table, accountId, level, adAccountId, records[..k], now).aborted
    ensures var r := IngestAll(table, accountId, level, adAccountId, records, now);
      r == IngestAll(table, accountId, level, adAccountId, records[..k], now) &&
      UniqueKeys(r.rows) && SequentialSnapshotIds(r.rows)
  {
    if k < |records| {
      AbortSticks(table, accountId, level, adAccountId, records, k, now);
    } else {
      assert records[..k] == records;
    }
    IngestKeepsUniqueKeys(table, accountId, level, adAccountId, records, now);
  }

  /** A step keeps the table free of duplicate keys and keeps its ids sequential. */
  lemma IngestStepKeepsTable(run: Run, accountId: int, level: Level, adAccountId: string, record: Json.Value, now: Instant)
    requires UniqueKeys(run.rows) && SequentialSnapshotIds(run.rows)
    ensures var r := IngestStep(run, accountId, level, adAccountId, record, now);
      UniqueKeys(r.rows) && SequentialSnapshotIds(r.rows)
  {
    var r := IngestStep(run, accountId, level, adAccountId, record, now);
    if r.rows != run.rows {
      var n := Normalize(record, level, adAccountId).value;
      var s := SnapshotOf(run.rows, accountId, level, n, n.entityId.value, now);
      assert r.rows == run.rows + [s];
      AppendFreshKey(run.rows, s);
    }
  }

  /** A run over any records keeps the table free of duplicate keys: the unique index is never violated. */
  lemma {:induction false} IngestKeepsUniqueKeys(table: seq<MetricSnapshot>, accountId: int, level: Level, adAccountId: string,
                                                  records: seq<Json.Value>, now: Instant)
    requires UniqueKeys(table) && SequentialSnapshotIds(table)
    ensures var r := IngestAll(table, accountId, level, adAccountId, records, now);
      UniqueKeys(r.rows) && SequentialSnapshotIds(r.rows)
  {
    if |records| > 0 {
      IngestKeepsUniqueKeys(table, accountId, level, adAccountId, records[..|records| - 1], now);
      IngestStepKeepsTable(IngestAll(table, accountId, level, adAccountId, records[..|records| - 1], now),
                           accountId, level, adAccountId, records[|records| - 1], now);
    }
  }

  /** The record reads without error, and the row it stands for is skipped by a table that already has its key. */
  predicate Covered(rows: seq<MetricSnapshot>, accountId: int, level: Level, adAccountId: string, record: Json.Value) {
    var n := Normalize(record, level, adAccountId);
    n.Success? && (n.value.NoStartDate? || n.value.entityId.None? ||
                   HasKey(rows, SnapshotKey(accountId, n.value.ts, n.value.entityId.value, level)))
  }

  /** A covered record is covered by any longer table. */
  lemma CoveredGrows(rows: seq<MetricSnapshot>, more: seq<MetricSnapshot>, accountId: int, level: Level, adAccountId: string, record: Json.Value)
    requires rows <= more && Covered(rows, accountId, level, adAccountId, record)
    ensures Covered(more, accountId, level, adAccountId, record)
  {
    var n := Normalize(record, level, adAccountId).value;
    if !(n.NoStartDate? || n.entityId.None?) {
      var k := SnapshotKey(accountId, n.ts, n.entityId.value, level);
      var i :| 0 <= i < |rows| && Key(rows[i]) == k;
      assert more[i] == rows[i];
    }
  }

  /** After a run that completes, every record it read is covered by the table it left. */
  lemma {:induction false} CompletedRunCovers(table: seq<MetricSnapshot>, accountId: int, level: Level, adAccountId: string,
                                               records: seq<Json.Value>, now: Instant)
    requires !IngestAll(table, accountId, level, adAccountId, records, now).aborted
    ensures forall i :: 0 <= i < |records| ==>
      Covered(IngestAll(table, accountId, level, adAccountId, records, now).rows, accountId, level, adAccountId, records[i])
  {
    if |records| > 0 {
      var init := records[..|records| - 1];
      var prev := IngestAll(table, accountId, level, adAccountId, init, now);
      var r := IngestAll(table, accountId, level, adAccountId, records, now);
      var last := records[|records| - 1];
      assert !prev.aborted;
      CompletedRunCovers(table, accountId, level, adAccountId, init, now);
      forall i | 0 <= i < |records|
        ensures Covered(r.rows, accountId, level, adAccountId, records[i])
      {
        if i < |records| - 1 {
          assert records[i] == init[i];
          CoveredGrows(prev.rows, r.rows, accountId, level, adAccountId, records[i]);
        } else {
          var n := Normalize(last, level, adAccountId).value;
          if !(n.NoStartDate? || n.entityId.None?) {
            var s := SnapshotOf(prev.rows, accountId, level, n, n.entityId.value, now);
            if !HasKey(prev.rows, Key(s)) {
              assert r.rows[|prev.rows|] == s;
            }
          }
        }
      }
    }
  }

  /** Over a table that covers every record, a run inserts nothing and skips every record. */
  lemma {:induction false} CoveredRecordsSkipped(rows: seq<MetricSnapshot>, accountId: int, level: Level, adAccountId: string,
                                                  records: seq<Json.Value>, now: Instant)
    requires forall i :: 0 <= i < |records| ==> Covered(rows, accountId, level, adAccountId, records[i])
    ensures IngestAll(rows, accountId, level, adAccountId, records, now) == Run(rows, 0, |records|, false)
  {
    if |records| > 0 {
      var init := records[..|records| - 1];
      assert forall i :: 0 <= i < |init| ==> init[i] == records[i];
      CoveredRecordsSkipped(rows, accountId, level, adAccountId, init, now);
      assert Covered(rows, accountId, level, adAccountId, records[|records| - 1]);
    }
  }

  /**
    Idempotence: running the same records again over the table a completed run left ingests
    nothing, skips every record and leaves the table as it was.
   */
  lemma IngestIdempotent(table: seq<MetricSnapshot>, accountId: int, level: Level, adAccountId: string,
                         records: seq<Json.Value>, now: Instant, later: Instant)
    requires !IngestAll(table, accountId, level, adAccountId, records, now).aborted
    ensures var first := IngestAll(table, accountId, level, adAccountId, records, now);
      IngestAll(first.rows, accountId, level, adAccountId, records, later) == Run(first.rows, 0, |records|, false)
  {
    CompletedRunCovers(table, accountId, level, adAccountId, records, now);
    var first := IngestAll(table, accountId, level, adAccountId, records, now);
    CoveredRecordsSkipped(first.rows, accountId, level, adAccountId, records, later);
  }

  /** A record without `date_start` is counted as skipped and adds no row. */
  lemma NoStartDateSkipped(run: Run, accountId: int, level: Level, adAccountId: string, record: Json.Value, now: Instant)
    requires !run.aborted && record.Obj? && "date_start" !in record.fields
    ensures IngestStep(run, accountId, level, adAccountId, record, now) == run.(skipped := run.skipped + 1)
  {
  }

  /** The campaign record of the worked example: text counters and one purchase in each array. */
  function ExampleRecord(): Json.Value {
    Json.Obj(map[
      "date_start" := Json.Str("2024-01-01"),
      "campaign_id" := Json.Str("c1"),
      "impressions" := Json.Str("1000"),
      "clicks" := Json.Str("50"),
      "spend" := Json.Str("100.0"),
      "actions" := Json.Arr([Json.Obj(map["action_type" := Json.Str("purchase"), "value" := Json.Str("5")])]),
      "action_values" := Json.Arr([Json.Obj(map["action_type" := Json.Str("purchase"), "value" := Json.Str("500.0")])])])
  }

  /** A record whose every field reads normalises to the row of those readings. */
  lemma NormalizedRow(record: Json.Value, level: Level, adAccountId: string, ts: Date, entityId: string,
                      impressions: int, clicks: int, spend: real, conversions: int, revenue: real)
    requires record.Obj?
    requires "date_start" in record.fields && record.fields["date_start"].Str?
    requires ParseDate(record.fields["date_start"].s) == Some(ts)
    requires Json.ToInt(Json.GetOr(record.fields, "impressions", Json.Int(0))) == Some(impressions)
    requires Json.ToInt(Json.GetOr(record.fields, "clicks", Json.Int(0))) == Some(clicks)
    requires Json.ToFloat(Json.GetOr(record.fields, "spend", Json.Float(0.0))) == Some(spend)
    requires ActionEntries(Json.GetOr(record.fields, "actions", Json.Arr([]))).Some?
    requires PurchaseCount(ActionEntries(Json.GetOr(record.fields, "actions", Json.Arr([]))).value) == Some(conversions)
    requires ActionEntries(Json.GetOr(record.fields, "action_values", Json.Arr([]))).Some?
    requires PurchaseValue(ActionEntries(Json.GetOr(record.fields, "action_values", Json.Arr([]))).value) == Some(revenue)
    requires EntityId(record.fields, level, adAccountId) == Success(Some(entityId))
    ensures Normalize(record, level, adAccountId) ==
      Success(Row(ts, Some(entityId), impressions, clicks, spend, conversions, revenue, record))
  {
    assert ParseDate(record.fields["date_start"].s).Some?;
  }

  /** The worked example normalises to entity c1 with 1000 impressions, 50 clicks, 100.0 spend, 5 conversions and 500.0 revenue. */
  lemma ExampleRecordNormalized(record: Json.Value, adAccountId: string)
    requires record == ExampleRecord()
    ensures Normalize(record, Campaign, adAccountId) ==
      Success(Row(Date(2024, 1, 1), Some("c1"), 1000, 50, 100.0, 5, 500.0, record))
  {
    ExampleReadings(record, adAccountId);
    NormalizedRow(record, Campaign, adAccountId, Date(2024, 1, 1), "c1", 1000, 50, 100.0, 5, 500.0);
  }

  /** What each field of the worked example reads as. */
  lemma ExampleReadings(record: Json.Value, adAccountId: string)
    requires record == ExampleRecord()
    ensures record.Obj?
    ensures "date_start" in record.fields && record.fields["date_start"].Str?
    ensures ParseDate(record.fields["date_start"].s) == Some(Date(2024, 1, 1))
    ensures Json.ToInt(Json.GetOr(record.fields, "impressions", Json.Int(0))) == Some(1000)
    ensures Json.ToInt(Json.GetOr(record.fields, "clicks", Json.Int(0))) == Some(50)
    ensures Json.ToFloat(Json.GetOr(record.fields, "spend", Json.Float(0.0))) == Some(100.0)
    ensures ActionEntries(Json.GetOr(record.fields, "actions", Json.Arr([]))).Some?
    ensures PurchaseCount(ActionEntries(Json.GetOr(record.fields, "actions", Json.Arr([]))).value) == Some(5)
    ensures ActionEntries(Json.GetOr(record.fields, "action_values", Json.Arr([]))).Some?
    ensures PurchaseValue(ActionEntries(Json.GetOr(record.fields, "action_values", Json.Arr([]))).value) == Some(500.0)
    ensures EntityId(record.fields, Campaign, adAccountId) == Success(Some("c1"))
  {
    ExampleScalarFields(record);
    ExamplePurchases();
    ExampleEntity(adAccountId);
  }

  lemma ExampleScalarFields(record: Json.Value)
    requires record == ExampleRecord()
    ensures record.Obj?
    ensures "date_start" in record.fields && record.fields["date_start"].Str?
    ensures ParseDate(record.fields["date_start"].s) == Some(Date(2024, 1, 1))
    ensures Json.ToInt(Json.GetOr(record.fields, "impressions", Json.Int(0))) == Some(1000)
    ensures Json.ToInt(Json.GetOr(record.fields, "clicks", Json.Int(0))) == Some(50)
    ensures Json.ToFloat(Json.GetOr(record.fields, "spend", Json.Float(0.0))) == Some(100.0)
  {
    ExampleField(record, "date_start", Json.Str("2024-01-01"));
    ExampleField(record, "impressions", Json.Str("1000"));
    ExampleField(record, "clicks", Json.Str("50"));
    ExampleField(record, "spend", Json.Str("100.0"));
    ExampleDate();
    ExampleCounters();
  }

  lemma ExampleField(record: Json.Value, key: string, v: Json.Value)
    requires record == ExampleRecord()
    requires (key, v) in {("date_start", Json.Str("2024-01-01")), ("impressions", Json.Str("1000")),
                          ("clicks", Json.Str("50")), ("spend", Json.Str("100.0"))}
    ensures record.Obj? && key in record.fields && record.fields[key] == v
  {
  }

  lemma ExampleEntity(adAccountId: string)
    ensures EntityId(ExampleRecord().fields, Campaign, adAccountId) == Success(Some("c1"))
  {
    var f := ExampleRecord().fields;
    assert "campaign_id" in f && f["campaign_id"] == Json.Str("c1");
  }

  /** The worked example's one purchase in each array gives 5 conversions and 500.0 of revenue. */
  lemma ExamplePurchases()
    ensures ActionEntries(Json.GetOr(ExampleRecord().fields, "actions", Json.Arr([]))).Some?
    ensures PurchaseCount(ActionEntries(Json.GetOr(ExampleRecord().fields, "actions", Json.Arr([]))).value) == Some(5)
    ensures ActionEntries(Json.GetOr(ExampleRecord().fields, "action_values", Json.Arr([]))).Some?
    ensures PurchaseValue(ActionEntries(Json.GetOr(ExampleRecord().fields, "action_values", Json.Arr([]))).value) == Some(500.0)
  {
    var f := ExampleRecord().fields;
    var entry := Json.Obj(map["action_type" := Json.Str("purchase"), "value" := Json.Str("5")]);
    var valueEntry := Json.Obj(map["action_type" := Json.Str("purchase"), "value" := Json.Str("500.0")]);
    assert Json.GetOr(f, "actions", Json.Arr([])) == Json.Arr([entry]);
    assert Json.GetOr(f, "action_values", Json.Arr([])) == Json.Arr([valueEntry]);
    ExampleCounters();
    OnePurchase(entry, Json.Str("5"));
    OnePurchase(valueEntry, Json.Str("500.0"));
  }

  /** A lone purchase entry counts its value. */
  lemma OnePurchase(entry: Json.Value, value: Json.Value)
    requires entry == Json.Obj(map["action_type" := Json.Str("purchase"), "value" := value])
    ensures Json.ToInt(value).Some? ==> PurchaseCount([entry]) == Some(Json.ToInt(value).value)
    ensures Json.ToFloat(value).Some? ==> PurchaseValue([entry]) == Some(Json.ToFloat(value).value)
  {
    assert [entry][..0] == [];
    assert IsPurchase(entry.fields);
    assert Json.GetOr(entry.fields, "value", Json.Int(0)) == value;
    assert Json.GetOr(entry.fields, "value", Json.Float(0.0)) == value;
  }

  lemma ExampleDate()
    ensures ParseDate("2024-01-01") == Some(Date(2024, 1, 1))
  {
    var s := "2024-01-01";
    assert |s| == 10 && s[4] == '-' && s[6] != '-' && s[7] == '-';
    assert s[..4] == "2024";
    assert s[5..7] == "01";
    assert s[8..] == "01";
    ExampleDateFields();
  }

  lemma ExampleDateFields()
    ensures AllDigits("2024") && DigitsValue("2024") == 2024
    ensures MonthField("01") == Some(1) && DayField("01") == Some(1)
  {
    assert "2024"[..3] == "202" && "202"[..2] == "20" && "20"[..1] == "2" && "2"[..0] == [];
    assert "01"[..1] == "0" && "0"[..0] == [];
    assert DigitsValue("01") == 1;
  }

  lemma ExampleCounters()
    ensures Json.ToInt(Json.Str("1000")) == Some(1000)
    ensures Json.ToInt(Json.Str("50")) == Some(50)
    ensures Json.ToInt(Json.Str("5")) == Some(5)
    ensures Json.ToFloat(Json.Str("100.0")) == Some(100.0)
    ensures Json.ToFloat(Json.Str("500.0")) == Some(500.0)
  {
    ExampleNumerals();
    DecimalExample("100.0", "100", 100);
    DecimalExample("500.0", "500", 500);
  }

  lemma ExampleNumerals()
    ensures AllDigits("1000") && DigitsValue("1000") == 1000
    ensures AllDigits("100") && DigitsValue("100") == 100
    ensures AllDigits("500") && DigitsValue("500") == 500
    ensures AllDigits("50") && DigitsValue("50") == 50
    ensures AllDigits("5") && DigitsValue("5") == 5
  {
    assert "5"[..0] == [] && "1"[..0] == [];
    assert "50"[..1] == "5" && "10"[..1] == "1";
    assert "500"[..2] == "50" && "100"[..2] == "10";
    assert "1000"[..3] == "100";
  }

  /** `float("<digits>.0")` is the value of the digits. */
  lemma DecimalExample(s: string, whole: string, n: nat)
    requires |whole| >= 1 && AllDigits(whole) && DigitsValue(whole) == n && '.' !in whole
    requires s == whole + ".0"
    ensures Json.ToFloat(Json.Str(s)) == Some(n as real)
  {
    assert s[|whole|] == '.';
    assert s[..|whole|] == whole;
    var i := IndexOf(s, '.');
    assert i == |whole|;
    assert s[i + 1..] == "0";
    assert Json.FractionValue("0") == 0.0 by {
      assert "0"[1..] == [];
    }
    assert s[0] != '-' && s[0] != '+' by {
      assert s[0] == whole[0];
    }
  }
}
