/**
 * The JavaScript values and records that the visualisation's data passes
 * through: CSV rows are objects whose fields hold strings, numbers after
 * coercion, NaN, or nothing at all (a missing property reads as undefined).
 */
module Records {

  datatype Option<+T> = None | Some(value: T)

  /** A property value. Every number that the loader can produce is the
      parse of a decimal digit string, so numbers are naturals here, and
      exact: the rounding of JavaScript's double-precision numbers is not
      modelled. */
  datatype Value = Str(s: string) | Num(n: nat) | NaN | Undefined

  /** A record read from a CSV file after loading: field name to value. */
  type Row = map<string, Value>

  /** A raw CSV row, every field a string, as the CSV parser produces it. */
  type CsvRow = map<string, string>

  /** `obj[key]`: a missing property is undefined. */
  function Get(row: Row, key: string): Value {
    if key in row then row[key] else Undefined
  }

  /** `obj[key]` on a raw CSV row. */
  function GetText(row: CsvRow, key: string): Value {
    if key in row then Str(row[key]) else Undefined
  }

  predicate IsDigit(c: char) {
    '0' <= c <= '9'
  }

  predicate AllDigits(s: string) {
    forall i :: 0 <= i < |s| ==> IsDigit(s[i])
  }

  function DigitValue(c: char): (d: nat)
    requires IsDigit(c)
    ensures d < 10
  {
    c as int - '0' as int
  }

  function DigitChar(d: nat): (c: char)
    requires d < 10
    ensures IsDigit(c) && DigitValue(c) == d
  {
    ('0' as int + d) as char
  }

  /**
   * The unary `+` applied to a string, for strings made of decimal digits:
   * the empty string converts to 0, a digit string to its value, and any
   * other string is treated as not a number.
   */
  function ParseNumber(s: string): (r: Option<nat>)
    ensures r.Some? <==> AllDigits(s)
  {
    if |s| == 0 then Some(0)
    else
      var last := s[|s| - 1];
      match ParseNumber(s[..|s| - 1])
      case None => None
      case Some(p) => if IsDigit(last) then Some(10 * p + DigitValue(last)) else None
  }

  /** The empty string converts to 0. */
  lemma ParseNumberEmpty()
    ensures ParseNumber("") == Some(0)
  {
  }

  /** A leading zero does not change the value: with `ParseDecimalString`
      this fixes the number every digit string converts to. */
  lemma {:induction false} ParseNumberLeadingZero(s: string)
    ensures ParseNumber(['0'] + s) == ParseNumber(s)
  {
    var t := ['0'] + s;
    if s == [] {
      assert t[..|t| - 1] == [];
    } else {
      assert t[..|t| - 1] == ['0'] + s[..|s| - 1];
      assert t[|t| - 1] == s[|s| - 1];
      ParseNumberLeadingZero(s[..|s| - 1]);
    }
  }

  /** The decimal text of a natural number, without leading zeros. This is
      what JavaScript's `String(n)` writes for integers below 10^21; larger
      ones, which it writes in exponent form, are not modelled. */
  function DecimalString(n: nat): (s: string)
    ensures |s| > 0 && AllDigits(s)
    ensures |s| > 1 ==> s[0] != '0'
  {
    if n < 10 then [DigitChar(n)] else DecimalString(n / 10) + [DigitChar(n % 10)]
  }

  /** Printing a number and reading it back gives the number. */
  lemma {:induction false} ParseDecimalString(n: nat)
    ensures ParseNumber(DecimalString(n)) == Some(n)
  {
    var s := DecimalString(n);
    if n < 10 {
      assert s[..|s| - 1] == [];
    } else {
      ParseDecimalString(n / 10);
      assert s[..|s| - 1] == DecimalString(n / 10);
    }
  }

  /** The unary `+` on any value: strings parse, undefined and NaN become NaN. */
  function ToNumber(v: Value): (r: Value)
    ensures r.Num? || r.NaN?
    ensures v.Num? ==> r == v
    ensures v.Str? ==> (r.Num? <==> AllDigits(v.s))
  {
    match v
    case Str(s) => (match ParseNumber(s) case Some(n) => Num(n) case None => NaN)
    case Num(_) => v
    case NaN => NaN
    case Undefined => NaN
  }

  /** The property name a value denotes when used as `obj[v]`. */
  function PropertyKey(v: Value): string {
    match v
    case Str(s) => s
    case Num(n) => DecimalString(n)
    case NaN => "NaN"
    case Undefined => "undefined"
  }
}
