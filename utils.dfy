/**
  The derived metrics of `app/utils.py`: click-through rate, return on ad spend, and the
  summary of a list of snapshots. Money and ratios are exact reals.
 */
module Utils {
  import opened Dates
  import opened Models

  /** `round(x, 2)`: the nearest multiple of 0.01, halves rounded up. */
  function Round2(x: real): (r: real)
    ensures x - 0.005 < r <= x + 0.005
  {
    ((x * 100.0 + 0.5).Floor as real) / 100.0
  }

  /** Rounding never reverses the order of two values. */
  lemma Round2Monotone(x: real, y: real)
    requires x <= y
    ensures Round2(x) <= Round2(y)
  {
    assert (x * 100.0 + 0.5).Floor <= (y * 100.0 + 0.5).Floor;
  }

  /** A non-negative value rounds to 0 exactly when it is below half a hundredth. */
  lemma Round2Zero(x: real)
    requires 0.0 <= x
    ensures Round2(x) == 0.0 <==> x < 0.005
  {
  }

  /** Multiplying both sides by a positive factor keeps a strict comparison. */
  lemma ScaleLess(a: real, b: real, k: real)
    requires 0.0 < k
    ensures a < b <==> a * k < b * k
  {
  }

  /** `calculate_ctr(clicks, impressions)`: a percentage, 0 when there were no impressions. */
  function CalculateCtr(clicks: int, impressions: int): (r: real)
    ensures impressions == 0 ==> r == 0.0
    ensures impressions != 0 ==>
      var exact := clicks as real / impressions as real * 100.0;
      exact - 0.005 < r <= exact + 0.005
  {
    if impressions == 0 then 0.0 else Round2(clicks as real / impressions as real * 100.0)
  }

  /** `calculate_roas(revenue, spend)`: revenue per unit spent, 0 when nothing was spent. */
  function CalculateRoas(revenue: real, spend: real): (r: real)
    ensures spend == 0.0 ==> r == 0.0
    ensures spend != 0.0 ==> revenue / spend - 0.005 < r <= revenue / spend + 0.005
  {
    if spend == 0.0 then 0.0 else Round2(revenue / spend)
  }

  /** CTR lies in 0..100 whenever there are no more clicks than impressions, as the docstring says. */
  lemma CtrIsPercentage(clicks: int, impressions: int)
    requires 0 <= clicks <= impressions
    ensures 0.0 <= CalculateCtr(clicks, impressions) <= 100.0
  {
    if impressions != 0 {
      var x := clicks as real / impressions as real * 100.0;
      assert 0.0 <= x <= 100.0 by {
        assert clicks as real <= impressions as real;
      }
      Round2Monotone(0.0, x);
      Round2Monotone(x, 100.0);
      assert Round2(0.0) == 0.0 && Round2(100.0) == 100.0;
    }
  }

  /**
    For non-negative counters CTR is 0 exactly when there were no impressions or the rate
    rounds to zero (fewer than one click in 20000 impressions); the zero guard is not the
    only way to get 0.
   */
  lemma CtrZeroExactly(clicks: int, impressions: int)
    requires 0 <= clicks && 0 <= impressions
    ensures CalculateCtr(clicks, impressions) == 0.0 <==> impressions == 0 || 20000 * clicks < impressions
  {
    if impressions != 0 {
      var x := clicks as real / impressions as real * 100.0;
      assert CalculateCtr(clicks, impressions) == Round2(x);
      RateBelowHalfHundredth(clicks as real, impressions as real);
      Round2Zero(x);
    }
  }

  /** A rate `c / i` in percent is below 0.005 exactly when `20000 * c < i`. */
  lemma RateBelowHalfHundredth(c: real, i: real)
    requires 0.0 <= c && 0.0 < i
    ensures 0.0 <= c / i * 100.0
    ensures c / i * 100.0 < 0.005 <==> 20000.0 * c < i
  {
    var q := c / i;
    assert q * i == c;
    ScaleLess(q, 0.0, i);
    ScaleLess(q, 0.00005, i);
    assert 0.00005 * i * 20000.0 == i;
  }

  /**
    For non-negative amounts ROAS is 0 exactly when nothing was spent or the revenue is below
    half a hundredth of the spend.
   */
  lemma RoasZeroExactly(revenue: real, spend: real)
    requires 0.0 <= revenue && 0.0 <= spend
    ensures CalculateRoas(revenue, spend) == 0.0 <==> spend == 0.0 || 200.0 * revenue < spend
  {
    if spend != 0.0 {
      var q := revenue / spend;
      assert q * spend == revenue;
      ScaleLess(q, 0.005, spend);
      assert 0.0 <= q by {
        ScaleLess(q, 0.0, spend);
      }
      Round2Zero(q);
    }
  }

  /** Both ratios are non-negative on non-negative inputs. */
  lemma RatiosNonNegative(clicks: int, impressions: int, revenue: real, spend: real)
    requires 0 <= clicks && 0 <= impressions && 0.0 <= revenue && 0.0 <= spend
    ensures CalculateCtr(clicks, impressions) >= 0.0
    ensures CalculateRoas(revenue, spend) >= 0.0
  {
    assert Round2(0.0) == 0.0;
    if impressions != 0 {
      Round2Monotone(0.0, clicks as real / impressions as real * 100.0);
    }
    if spend != 0.0 {
      Round2Monotone(0.0, revenue / spend);
    }
  }

  /** Sums of each counter over a list of snapshots (`sum(m.x for m in metrics)`). */
  function TotalSpend(ms: seq<MetricSnapshot>): real {
    if ms == [] then 0.0 else TotalSpend(ms[..|ms| - 1]) + ms[|ms| - 1].spend
  }

  function TotalImpressions(ms: seq<MetricSnapshot>): int {
    if ms == [] then 0 else TotalImpressions(ms[..|ms| - 1]) + ms[|ms| - 1].impressions
  }

  function TotalClicks(ms: seq<MetricSnapshot>): int {
    if ms == [] then 0 else TotalClicks(ms[..|ms| - 1]) + ms[|ms| - 1].clicks
  }

  function TotalConversions(ms: seq<MetricSnapshot>): int {
    if ms == [] then 0 else TotalConversions(ms[..|ms| - 1]) + ms[|ms| - 1].conversions
  }

  function TotalRevenue(ms: seq<MetricSnapshot>): real {
    if ms == [] then 0.0 else TotalRevenue(ms[..|ms| - 1]) + ms[|ms| - 1].revenue
  }

  /** The totals add up over consecutive parts of the list: every metric counts once. */
  lemma {:induction false} TotalsSplit(a: seq<MetricSnapshot>, b: seq<MetricSnapshot>)
    ensures TotalSpend(a + b) == TotalSpend(a) + TotalSpend(b)
    ensures TotalImpressions(a + b) == TotalImpressions(a) + TotalImpressions(b)
    ensures TotalClicks(a + b) == TotalClicks(a) + TotalClicks(b)
    ensures TotalConversions(a + b) == TotalConversions(a) + TotalConversions(b)
    ensures TotalRevenue(a + b) == TotalRevenue(a) + TotalRevenue(b)
  {
    if b == [] {
      assert a + b == a;
    } else {
      TotalsSplit(a, b[..|b| - 1]);
      assert (a + b)[..|a + b| - 1] == a + b[..|b| - 1];
    }
  }

  /** One line of the daily-trend section. */
  datatype TrendLine = TrendLine(ts: Date, spend: real, ctr: real, roas: real, conversions: int)

  /**
    The content of the text `format_metrics_summary` returns: either the fixed
    "No metrics available." or the totals, the two averages and the trend lines.
   */
  datatype Summary =
    | NoMetrics
    | Summary(
        days: nat,
        totalSpend: real,
        totalImpressions: int,
        totalClicks: int,
        totalConversions: int,
        totalRevenue: real,
        averageCtr: real,
        averageRoas: real,
        trends: seq<TrendLine>)

  function Trend(m: MetricSnapshot): TrendLine {
    TrendLine(m.ts, m.spend, CalculateCtr(m.clicks, m.impressions), CalculateRoas(m.revenue, m.spend), m.conversions)
  }

  /** `format_metrics_summary(metrics)` */
  method FormatMetricsSummary(metrics: seq<MetricSnapshot>) returns (s: Summary)
    ensures metrics == [] <==> s == NoMetrics
    ensures metrics != [] ==>
      && s.days == |metrics|
      && s.totalSpend == TotalSpend(metrics)
      && s.totalImpressions == TotalImpressions(metrics)
      && s.totalClicks == TotalClicks(metrics)
      && s.totalConversions == TotalConversions(metrics)
      && s.totalRevenue == TotalRevenue(metrics)
      && s.averageCtr == CalculateCtr(TotalClicks(metrics), TotalImpressions(metrics))
      && s.averageRoas == CalculateRoas(TotalRevenue(metrics), TotalSpend(metrics))
    ensures metrics != [] ==>
      && |s.trends| == (if |metrics| < 3 then |metrics| else 3)
      && forall i :: 0 <= i < |s.trends| ==> s.trends[i] == Trend(metrics[i])
  {
    if metrics == [] {
      return NoMetrics;
    }
    var totalSpend := TotalSpend(metrics);
    var totalImpressions := TotalImpressions(metrics);
    var totalClicks := TotalClicks(metrics);
    var totalConversions := TotalConversions(metrics);
    var totalRevenue := TotalRevenue(metrics);
    var avgCtr := CalculateCtr(totalClicks, totalImpressions);
    var avgRoas := CalculateRoas(totalRevenue, totalSpend);
    var head := if |metrics| < 3 then metrics else metrics[..3];
    var trends: seq<TrendLine> := [];
    var i := 0;
    while i < |head|
      invariant 0 <= i <= |head|
      invariant |trends| == i
      invariant forall k :: 0 <= k < i ==> trends[k] == Trend(metrics[k])
    {
      trends := trends + [Trend(head[i])];
      i := i + 1;
    }
    s := Summary(|metrics|, totalSpend, totalImpressions, totalClicks, totalConversions,
                 totalRevenue, avgCtr, avgRoas, trends);
  }

  /**
    The average CTR is the CTR of the totals, not the mean of the daily CTRs: one click in 100
    impressions followed by a day of one impression without clicks averages 0.99, while the
    daily values 1.0 and 0.0 have mean 0.5.
   */
  lemma AverageCtrIsNotMeanOfDays(d: Date)
    ensures var a := DefaultSnapshot(1, 1, d, Campaign, "c1", 0.0).(clicks := 1, impressions := 100);
            var b := DefaultSnapshot(2, 1, d, Campaign, "c2", 0.0).(impressions := 1);
            var ms := [a, b];
            CalculateCtr(TotalClicks(ms), TotalImpressions(ms)) == 0.99
            && (CalculateCtr(a.clicks, a.impressions) + CalculateCtr(b.clicks, b.impressions)) / 2.0 == 0.5
  {
    var a := DefaultSnapshot(1, 1, d, Campaign, "c1", 0.0).(clicks := 1, impressions := 100);
    var b := DefaultSnapshot(2, 1, d, Campaign, "c2", 0.0).(impressions := 1);
    var ms := [a, b];
    assert ms[..1] == [a] && [a][..0] == [];
    assert TotalClicks([a]) == 1 && TotalImpressions([a]) == 100;
    assert TotalClicks(ms) == 1 && TotalImpressions(ms) == 101;
    assert (1.0 / 101.0 * 100.0 * 100.0 + 0.5).Floor == 99;
    assert (1.0 / 100.0 * 100.0 * 100.0 + 0.5).Floor == 100;
  }
}
