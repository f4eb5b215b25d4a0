/**
 * The loosely typed values a YAML document loads into, as the converter sees
 * them: None, integers, booleans, floats, text, timestamps, nested mappings and
 * lists.  Python's `str()` and truthiness are defined here, together with the
 * decimal rendering of integers and the `strftime('%Y-%m-%d %H:%M:%S')` layout.
 */
module PyValues {

  type Year = y: int | 1 <= y <= 9999 witness 1
  type Month = m: int | 1 <= m <= 12 witness 1
  type Day = d: int | 1 <= d <= 31 witness 1
  type Hour = h: int | 0 <= h < 24
  type Minute = m: int | 0 <= m < 60
  type Second = s: int | 0 <= s < 60

  /** A `datetime` down to the second (the only precision the converter prints). */
  datatype Timestamp = Timestamp(year: Year, month: Month, day: Day, hour: Hour, minute: Minute, second: Second)

  /**
   * A Python value as the YAML loader produces it.  A float, a mapping and a
   * list carry the text that `str()` gives them: the model does not compute
   * floating-point or container printing, it only passes that text along.
   */
  datatype Value =
    | Null
    | Int(i: int)
    | Bool(b: bool)
    | Float(repr: string)
    | Text(s: string)
    | DateTime(t: Timestamp)
    | Dict(entries: map<string, Value>, repr: string)
    | List(items: seq<Value>, repr: string)

  /** The empty mapping `{}`, the default of `d.get(k, {})`. */
  const EmptyDict: Value := Dict(map[], "{}")

  /** The empty list `[]`, the default of `d.get(k, [])`. */
  const EmptyList: Value := List([], "[]")

  /** Python truthiness: what `if value:` and `1 if value else 0` test. */
  predicate Truthy(v: Value) {
    match v
    case Null => false
    case Int(i) => i != 0
    case Bool(b) => b
    case Float(r) => r != "0.0" && r != "-0.0"
    case Text(s) => s != ""
    case DateTime(_) => true
    case Dict(m, _) => |m| > 0
    case List(items, _) => |items| > 0
  }

  // ---------------------------------------------------------------- decimals

  function Digit(d: nat): (c: char)
    requires d < 10
    ensures '0' <= c <= '9' && c as int - '0' as int == d
  {
    "0123456789"[d]
  }

  predicate IsDigit(c: char) {
    '0' <= c <= '9'
  }

  /** Decimal text of a natural number, most significant digit first, no padding. */
  function NatText(n: nat): (r: string)
    ensures |r| >= 1
    ensures forall k :: 0 <= k < |r| ==> IsDigit(r[k])
    decreases n
  {
    if n < 10 then [Digit(n)] else NatText(n / 10) + [Digit(n % 10)]
  }

  /** Python's `str(i)` for an int: a minus sign for negatives, then the digits. */
  function IntText(i: int): string {
    if i < 0 then "-" + NatText(-i) else NatText(i)
  }

  /** The value a string of decimal digits denotes (the reading side of `NatText`). */
  function ParseNat(s: string): nat {
    if s == [] then 0
    else 10 * ParseNat(s[..|s| - 1]) + (if IsDigit(s[|s| - 1]) then s[|s| - 1] as int - '0' as int else 0)
  }

  lemma {:induction false} NatTextRoundTrip(n: nat)
    ensures ParseNat(NatText(n)) == n
    decreases n
  {
    if n >= 10 {
      NatTextRoundTrip(n / 10);
      var s := NatText(n);
      assert s[..|s| - 1] == NatText(n / 10);
    }
  }

  /** Distinct numbers have distinct decimal texts. */
  lemma NatTextInjective(a: nat, b: nat)
    ensures NatText(a) == NatText(b) ==> a == b
  {
    NatTextRoundTrip(a);
    NatTextRoundTrip(b);
  }

  // ------------------------------------------------------------- timestamps

  /** `%02d`: two digits, zero-padded. */
  function Pad2(n: nat): (r: string)
    requires n < 100
    ensures |r| == 2 && IsDigit(r[0]) && IsDigit(r[1])
  {
    [Digit(n / 10), Digit(n % 10)]
  }

  /** `%04d`: four digits, zero-padded. */
  function Pad4(n: nat): (r: string)
    requires n < 10000
    ensures |r| == 4 && forall k :: 0 <= k < 4 ==> IsDigit(r[k])
  {
    [Digit(n / 1000), Digit(n / 100 % 10), Digit(n / 10 % 10), Digit(n % 10)]
  }

  /**
   * The `strftime` call `t.strftime('%Y-%m-%d %H:%M:%S')`, used for the
   * datetime literals and the file header, as the C library on Linux renders
   * it: the year is printed without padding, the other fields with two digits.
   * `str(t)` is a different call and pads the year (see `Str`).
   */
  function Strftime(t: Timestamp): string {
    NatText(t.year) + "-" + Pad2(t.month) + "-" + Pad2(t.day) + " "
      + Pad2(t.hour) + ":" + Pad2(t.minute) + ":" + Pad2(t.second)
  }

  /** The characters `Strftime` can produce: digits, '-', ' ' and ':' only. */
  lemma StrftimeAlphabet(t: Timestamp)
    ensures forall k :: 0 <= k < |Strftime(t)| ==> var c := Strftime(t)[k]; IsDigit(c) || c == '-' || c == ' ' || c == ':'
  {
  }

  // ----------------------------------------------------------------- str()

  /**
   * Python's `str(value)`.  For a datetime this is `str(t)` (`isoformat` with
   * a space), whose year is always four digits, unlike `Strftime`.
   */
  function Str(v: Value): string {
    match v
    case Null => "None"
    case Int(i) => IntText(i)
    case Bool(b) => if b then "True" else "False"
    case Float(r) => r
    case Text(s) => s
    case DateTime(t) =>
      Pad4(t.year) + "-" + Pad2(t.month) + "-" + Pad2(t.day) + " "
        + Pad2(t.hour) + ":" + Pad2(t.minute) + ":" + Pad2(t.second)
    case Dict(_, r) => r
    case List(_, r) => r
  }
}
