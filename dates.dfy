/**
  Calendar dates as the pipeline reads and writes them: `datetime.strptime(s, "%Y-%m-%d").date()`
  for parsing and `str(date)` (ISO `YYYY-MM-DD`) for printing.
 */
module Dates {
  import opened Wrappers
  import opened Text

  /** A point in time as a naive UTC `datetime`, in seconds since the epoch. */
  type Instant = real

  datatype Date = Date(year: int, month: int, day: int)

  predicate IsLeap(y: int) {
    y % 4 == 0 && (y % 100 != 0 || y % 400 == 0)
  }

  function DaysInMonth(y: int, m: int): (n: int)
    requires 1 <= m <= 12
    ensures 28 <= n <= 31
  {
    if m == 2 then (if IsLeap(y) then 29 else 28)
    else if m == 4 || m == 6 || m == 9 || m == 11 then 30
    else 31
  }

  /** A date Python's `datetime.date` accepts: years 1 to 9999 and a day that exists in the month. */
  predicate ValidDate(d: Date) {
    1 <= d.year <= 9999 && 1 <= d.month <= 12 && 1 <= d.day <= DaysInMonth(d.year, d.month)
  }

  /** The `%m` field, whose pattern is `1[0-2]|0[1-9]|[1-9]`. */
  function MonthField(s: string): (r: Option<int>)
    ensures r.Some? ==> 1 <= r.value <= 12
  {
    if |s| == 1 && '1' <= s[0] <= '9' then Some(DigitValue(s[0]))
    else if |s| == 2 && AllDigits(s) && 1 <= DigitsValue(s) <= 12 then Some(DigitsValue(s))
    else None
  }

  /** The `%d` field, whose pattern is `3[01]|[12]\d|0[1-9]|[1-9]| [1-9]`. */
  function DayField(s: string): (r: Option<int>)
    ensures r.Some? ==> 1 <= r.value <= 31
  {
    if |s| == 1 && '1' <= s[0] <= '9' then Some(DigitValue(s[0]))
    else if |s| == 2 && s[0] == ' ' && '1' <= s[1] <= '9' then Some(DigitValue(s[1]))
    else if |s| == 2 && AllDigits(s) && 1 <= DigitsValue(s) <= 31 then Some(DigitsValue(s))
    else None
  }

  /**
    `datetime.strptime(s, "%Y-%m-%d").date()`: four digits of year, a dash, the month field,
    a dash and the day field, with nothing after it, naming a day of the calendar.
    None stands for the ValueError.
   */
  function ParseDate(s: string): (r: Option<Date>)
    ensures r.Some? ==> ValidDate(r.value)
    ensures r.Some? ==> 8 <= |s| <= 10 && AllDigits(s[..4]) && s[4] == '-'
  {
    if |s| < 8 || !AllDigits(s[..4]) || s[4] != '-' then None
    else
      var dash := if s[6] == '-' then 6 else 7;
      if s[dash] != '-' then None
      else
        match (MonthField(s[5..dash]), DayField(s[dash + 1..]))
        case (Some(month), Some(day)) =>
          DigitsBound(s[..4]);
          var year := DigitsValue(s[..4]);
          if 1 <= year && day <= DaysInMonth(year, month) then Some(Date(year, month, day)) else None
        case _ => None
  }

  /** Left-pads a digit string with zeros up to `width` characters. */
  function PadZeros(s: string, width: nat): (r: string)
    requires AllDigits(s)
    ensures AllDigits(r) && DigitsValue(r) == DigitsValue(s)
    ensures |r| == if |s| >= width then |s| else width
    decreases width - |s|
  {
    LeadingZeroValue(s);
    if |s| >= width then s else PadZeros("0" + s, width)
  }

  function Pow10(k: nat): (p: nat)
    ensures p >= 1
  {
    if k == 0 then 1 else 10 * Pow10(k - 1)
  }

  /** A string of `k` digits stands for a number below `10^k`. */
  lemma {:induction false} DigitsBound(s: string)
    requires AllDigits(s)
    ensures DigitsValue(s) < Pow10(|s|)
  {
    if s != [] {
      DigitsBound(s[..|s| - 1]);
    }
  }

  /** A number below `10^k` has at most `k` decimal digits. */
  lemma {:induction false} ShortDecimal(n: nat, k: nat)
    requires 1 <= k && n < Pow10(k)
    ensures |NatToString(n)| <= k
  {
    if n >= 10 {
      assert Pow10(k) == 10 * Pow10(k - 1);
      assert n / 10 < Pow10(k - 1);
      ShortDecimal(n / 10, k - 1);
    }
  }

  /** `str(date)`: `YYYY-MM-DD` with zero padding. */
  function FormatDate(d: Date): (s: string)
    requires ValidDate(d)
    ensures |s| == 10 && s[4] == '-' && s[7] == '-'
  {
    ShortDecimal(d.year, 4);
    ShortDecimal(d.month, 2);
    ShortDecimal(d.day, 2);
    PadZeros(NatToString(d.year), 4) + "-" + PadZeros(NatToString(d.month), 2) + "-" + PadZeros(NatToString(d.day), 2)
  }

  /** Every valid date printed as `YYYY-MM-DD` parses back to itself. */
  lemma FormatParseRoundTrip(d: Date)
    requires ValidDate(d)
    ensures ParseDate(FormatDate(d)) == Some(d)
  {
    ShortDecimal(d.year, 4);
    ShortDecimal(d.month, 2);
    ShortDecimal(d.day, 2);
    NatToStringValue(d.year);
    NatToStringValue(d.month);
    NatToStringValue(d.day);
    var y := PadZeros(NatToString(d.year), 4);
    var m := PadZeros(NatToString(d.month), 2);
    var dd := PadZeros(NatToString(d.day), 2);
    var s := FormatDate(d);
    assert s == y + "-" + m + "-" + dd;
    assert s[..4] == y;
    assert s[5..7] == m;
    assert s[8..] == dd;
    assert s[6] == m[1];
  }

  /** Chronological order: `a <= b` on Python dates. */
  predicate NotAfter(a: Date, b: Date) {
    a.year < b.year || (a.year == b.year && (a.month < b.month || (a.month == b.month && a.day <= b.day)))
  }

  /** The order is total, so that any two stored dates can be compared. */
  lemma NotAfterTotal(a: Date, b: Date)
    ensures NotAfter(a, b) || NotAfter(b, a)
    ensures NotAfter(a, b) && NotAfter(b, a) ==> a == b
  {
  }
}
