/**
  Decoded JSON as the Graph API delivers it to the Python code (`response.json()`), and the
  Python operations the pipeline applies to such values: truthiness, `dict.get`, `int(v)` and
  `float(v)`. JSON numbers are modelled as mathematical integers and reals.
 */
module Json {
  import opened Wrappers
  import opened Text

  datatype Value =
    | Null
    | Bool(b: bool)
    | Int(i: int)
    | Float(f: real)
    | Str(s: string)
    | Arr(items: seq<Value>)
    | Obj(fields: map<string, Value>)

  /** Python's `bool(v)`: None, False, zero and empty containers are false. */
  predicate Truthy(v: Value) {
    match v
    case Null => false
    case Bool(b) => b
    case Int(i) => i != 0
    case Float(f) => f != 0.0
    case Str(s) => s != ""
    case Arr(items) => items != []
    case Obj(fields) => fields != map[]
  }

  /** `d.get(key, default)` on a dict. */
  function GetOr(fields: map<string, Value>, key: string, default: Value): (v: Value)
    ensures key !in fields ==> v == default
    ensures key in fields ==> v == fields[key]
  {
    if key in fields then fields[key] else default
  }

  /** Truncation toward zero, as `int(x)` does on a float. */
  function Truncate(f: real): (n: int)
    ensures 0.0 <= f ==> n as real <= f < n as real + 1.0
    ensures f < 0.0 ==> n as real - 1.0 < f <= n as real
  {
    if f >= 0.0 then f.Floor else -((-f).Floor)
  }

  /** `int(v)`; None stands for the TypeError or ValueError Python raises. */
  function ToInt(v: Value): (r: Option<int>)
    ensures v.Int? ==> r == Some(v.i)
    ensures v.Null? || v.Arr? || v.Obj? ==> r == None
  {
    match v
    case Null => None
    case Bool(b) => Some(if b then 1 else 0)
    case Int(i) => Some(i)
    case Float(f) => Some(Truncate(f))
    case Str(s) => ParseInt(s)
    case Arr(_) => None
    case Obj(_) => None
  }

  /** The value of a string of digits read as a fraction after the decimal point. */
  function FractionValue(s: string): (r: real)
    requires AllDigits(s)
    ensures 0.0 <= r < 1.0
  {
    if s == [] then 0.0 else (DigitValue(s[0]) as real + FractionValue(s[1..])) / 10.0
  }

  /**
    `float(s)` on unsigned decimal text: digits, optionally a point and more digits,
    with at least one digit in all.
   */
  function ParseUnsignedDecimal(s: string): (r: Option<real>)
    ensures r.Some? ==> 0.0 <= r.value
  {
    if '.' !in s then
      if s != [] && AllDigits(s) then Some(DigitsValue(s) as real) else None
    else
      var i := IndexOf(s, '.');
      var whole, frac := s[..i], s[i + 1..];
      if AllDigits(whole) && AllDigits(frac) && |whole| + |frac| >= 1 then
        Some(DigitsValue(whole) as real + FractionValue(frac))
      else
        None
  }

  /** `float(s)` on text: an optional sign followed by an unsigned decimal. */
  function ParseDecimal(s: string): (r: Option<real>)
    ensures AllDigits(s) && s != [] ==> r == Some(DigitsValue(s) as real)
  {
    if |s| > 0 && (s[0] == '-' || s[0] == '+') then
      match ParseUnsignedDecimal(s[1..])
      case None => None
      case Some(x) => Some(if s[0] == '-' then -x else x)
    else
      ParseUnsignedDecimal(s)
  }

  /** `float(v)`; None stands for the TypeError or ValueError Python raises. */
  function ToFloat(v: Value): (r: Option<real>)
    ensures v.Int? ==> r == Some(v.i as real)
    ensures v.Float? ==> r == Some(v.f)
    ensures v.Null? || v.Arr? || v.Obj? ==> r == None
  {
    match v
    case Null => None
    case Bool(b) => Some(if b then 1.0 else 0.0)
    case Int(i) => Some(i as real)
    case Float(f) => Some(f)
    case Str(s) => ParseDecimal(s)
    case Arr(_) => None
    case Obj(_) => None
  }
}
