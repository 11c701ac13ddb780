/** Small failure-carrying wrappers used across the model. */
module Wrappers {
  datatype Option<+T> = None | Some(value: T)

  /** The outcome of a synchronous JavaScript call: it returns a value or throws. */
  datatype Outcome<+T> = Returned(value: T) | Threw
}

/**
 * JavaScript values as they appear in the application's records once
 * JSON.stringify followed by JSON.parse is taken to be the identity.
 * Objects are finite maps from property names to values.
 */
module Json {
  /** `Undefined` is what reading a missing property yields. Numbers are
      modelled as mathematical integers (the ids come from Date.now()). */
  datatype Value = Undefined | Num(n: int) | Str(s: string)

  type Obj = map<string, Value>

  /** Property access `o.k`: a missing key reads as undefined. */
  function Get(o: Obj, k: string): (v: Value)
    ensures k in o ==> v == o[k]
    ensures v != Undefined ==> k in o
  {
    if k in o then o[k] else Undefined
  }

  function DigitChar(d: nat): (c: char)
    requires d < 10
    ensures '0' <= c <= '9' && c as int - '0' as int == d
  {
    ('0' as int + d) as char
  }

  function DigitValue(c: char): int
  {
    c as int - '0' as int
  }

  /** The decimal spelling of a natural number, most significant digit first. */
  function Decimal(n: nat): (s: string)
    ensures |s| >= 1
    ensures forall i :: 0 <= i < |s| ==> '0' <= s[i] <= '9'
    decreases n
  {
    if n < 10 then [DigitChar(n)] else Decimal(n / 10) + [DigitChar(n % 10)]
  }

  /** Reads a string of decimal digits back as a number. */
  function ParseDecimal(s: string): int
    decreases |s|
  {
    if s == [] then 0 else 10 * ParseDecimal(s[..|s| - 1]) + DigitValue(s[|s| - 1])
  }

  /** The decimal spelling loses nothing: parsing it gives the number back. */
  lemma {:induction false} DecimalRoundTrip(n: nat)
    ensures ParseDecimal(Decimal(n)) == n
    decreases n
  {
    var s := Decimal(n);
    if n >= 10 {
      assert s[..|s| - 1] == Decimal(n / 10);
      DecimalRoundTrip(n / 10);
    }
  }

  /** String conversion as a template literal `${v}` performs it. */
  function JsString(v: Value): (r: string)
    ensures v.Str? ==> r == v.s
    ensures v.Num? ==> |r| >= 1 && (r[0] == '-' <==> v.n < 0)
    ensures v.Num? && v.n < 0 ==> r[1..] == Decimal(-v.n)
    ensures v.Num? && v.n >= 0 ==> r == Decimal(v.n)
  {
    match v
    case Undefined => "undefined"
    case Num(n) => if n < 0 then "-" + Decimal(-n) else Decimal(n)
    case Str(s) => s
  }

  /** Two different numbers never print the same. */
  lemma NumberStringInjective(a: int, b: int)
    requires JsString(Num(a)) == JsString(Num(b))
    ensures a == b
  {
    var s := JsString(Num(a));
    if s[0] == '-' {
      DecimalInjective(-a, -b);
    } else {
      DecimalInjective(a, b);
    }
  }

  lemma DecimalInjective(x: nat, y: nat)
    requires Decimal(x) == Decimal(y)
    ensures x == y
  {
    DecimalRoundTrip(x);
    DecimalRoundTrip(y);
  }
}
