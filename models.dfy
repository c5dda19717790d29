/**
  The three tables of the application (`users`, `facebook_accounts`, `metric_snapshots`) as
  records, with the uniqueness constraints the schema declares and the one it does not.
 */
module Models {
  import opened Wrappers
  import opened Dates
  import Json

  datatype User = User(id: int, email: string, hashedPassword: string, createdAt: Instant, updatedAt: Instant)

  /** A stored Graph API credential for one ad account of one user. `expiresAt == None` is SQL NULL. */
  datatype FacebookAccount = FacebookAccount(
    id: int,
    userId: int,
    adAccountId: string,
    accessToken: string,
    tokenType: string,
    expiresAt: Option<Instant>,
    isSystemUser: bool,
    createdAt: Instant,
    updatedAt: Instant)

  /** The aggregation levels of the insights endpoint. */
  datatype Level = Account | Campaign | Adset | Ad

  function LevelName(l: Level): string {
    match l
    case Account => "account"
    case Campaign => "campaign"
    case Adset => "adset"
    case Ad => "ad"
  }

  /** `level in ["account", "campaign", "adset", "ad"]`, giving the level named. */
  function ParseLevel(s: string): (r: Option<Level>)
    ensures r.Some? ==> LevelName(r.value) == s
  {
    if s == "account" then Some(Account)
    else if s == "campaign" then Some(Campaign)
    else if s == "adset" then Some(Adset)
    else if s == "ad" then Some(Ad)
    else None
  }

  /** Exactly the four level names are accepted. */
  lemma ParseLevelName(l: Level)
    ensures ParseLevel(LevelName(l)) == Some(l)
  {
  }

  /** One day of one entity's counters, as stored. `raw` is the source record (`json.dumps`), nullable. */
  datatype MetricSnapshot = MetricSnapshot(
    id: int,
    facebookAccountId: int,
    ts: Date,
    level: Level,
    entityId: string,
    impressions: int,
    clicks: int,
    spend: real,
    conversions: int,
    revenue: real,
    raw: Option<Json.Value>,
    createdAt: Instant)

  /** The columns of the unique index `idx_unique_metric`. */
  datatype SnapshotKey = SnapshotKey(facebookAccountId: int, ts: Date, entityId: string, level: Level)

  function Key(s: MetricSnapshot): SnapshotKey {
    SnapshotKey(s.facebookAccountId, s.ts, s.entityId, s.level)
  }

  predicate HasKey(rows: seq<MetricSnapshot>, k: SnapshotKey) {
    exists i :: 0 <= i < |rows| && Key(rows[i]) == k
  }

  /** At most one snapshot per (account, date, entity, level). */
  predicate UniqueKeys(rows: seq<MetricSnapshot>) {
    forall i, j :: 0 <= i < j < |rows| ==> Key(rows[i]) != Key(rows[j])
  }

  /** `users.email` is unique. */
  predicate UniqueEmails(users: seq<User>) {
    forall i, j :: 0 <= i < j < |users| ==> users[i].email != users[j].email
  }

  /** Auto-increment primary keys: the i-th row inserted has id i + 1. */
  predicate SequentialSnapshotIds(rows: seq<MetricSnapshot>) {
    forall i :: 0 <= i < |rows| ==> rows[i].id == i + 1
  }

  predicate SequentialAccountIds(accounts: seq<FacebookAccount>) {
    forall i :: 0 <= i < |accounts| ==> accounts[i].id == i + 1
  }

  /**
    One credential per (user, ad account). The schema only has a non-unique index on the pair,
    so this holds only as long as every writer checks before inserting.
   */
  predicate OneCredentialPerPair(accounts: seq<FacebookAccount>) {
    forall i, j :: 0 <= i < j < |accounts| ==>
      (accounts[i].userId, accounts[i].adAccountId) != (accounts[j].userId, accounts[j].adAccountId)
  }

  /** The token check of the insights fetch: a set expiry that lies before `now`; NULL never expires. */
  predicate TokenExpired(a: FacebookAccount, now: Instant) {
    a.expiresAt.Some? && a.expiresAt.value < now
  }

  /** A credential row built from the column defaults: a Bearer token, not a system user, no expiry. */
  function DefaultAccount(id: int, userId: int, adAccountId: string, accessToken: string, now: Instant): (a: FacebookAccount)
    ensures a.tokenType == "Bearer" && !a.isSystemUser && a.expiresAt == None
    ensures forall t: Instant :: !TokenExpired(a, t)
  {
    FacebookAccount(id, userId, adAccountId, accessToken, "Bearer", None, false, now, now)
  }

  /** A snapshot row built from the column defaults: zero counters, zero money, no raw record. */
  function DefaultSnapshot(id: int, facebookAccountId: int, ts: Date, level: Level, entityId: string, now: Instant): (s: MetricSnapshot)
    ensures s.impressions == 0 && s.clicks == 0 && s.conversions == 0
    ensures s.spend == 0.0 && s.revenue == 0.0 && s.raw == None
    ensures Key(s) == SnapshotKey(facebookAccountId, ts, entityId, level)
  {
    MetricSnapshot(id, facebookAccountId, ts, level, entityId, 0, 0, 0.0, 0, 0.0, None, now)
  }

  /** Appending a row whose key is new keeps the table free of duplicates. */
  lemma AppendFreshKey(rows: seq<MetricSnapshot>, s: MetricSnapshot)
    requires UniqueKeys(rows) && !HasKey(rows, Key(s))
    ensures UniqueKeys(rows + [s])
  {
    var t := rows + [s];
    forall i, j | 0 <= i < j < |t| ensures Key(t[i]) != Key(t[j]) {
      if j == |rows| {
        assert t[i] == rows[i];
      }
    }
  }
}
