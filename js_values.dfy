/** The JavaScript values the catalog code inspects: optional values, calls
    that may throw, numbers (with NaN), JSON field values, truthiness, and the
    conversions `Number(x)`, `Number(x) || 0` and `String(x)`. */
module JsValues {
  import opened Text

  datatype Option<+T> = None | Some(value: T)

  /** The outcome of an awaited call: it threw an error with a message, or it
      returned a value. Network calls and JSON parsing are inputs of this type. */
  datatype Call<+T> = Threw(message: string) | Returned(value: T)

  /** A JavaScript number. Infinities are not modelled; -0 is 0. */
  datatype Number = NaN | Finite(value: real)

  /** A JSON value as a field of a request body or a record holds it;
      `Compound` is an object that is not an array. Array values are not
      modelled: no field the core reads can hold one. */
  datatype Value = Undefined | Null | Bool(b: bool) | Num(n: Number) | Str(s: string) | Compound

  /** JavaScript truthiness: `undefined`, `null`, `false`, `0`, `NaN` and `''`
      are falsy, everything else is truthy. */
  predicate Truthy(v: Value)
  {
    match v
    case Undefined => false
    case Null => false
    case Bool(b) => b
    case Num(n) => n.Finite? && n.value != 0.0
    case Str(s) => s != ""
    case Compound => true
  }

  /** `Number(v)` */
  function ToNumber(v: Value): Number
  {
    match v
    case Undefined => NaN
    case Null => Finite(0.0)
    case Bool(b) => Finite(if b then 1.0 else 0.0)
    case Num(n) => n
    case Str(s) => ParseNumber(s)
    case Compound => NaN
  }

  /** `n || 0`: NaN and 0 become 0, any other number is kept. */
  function OrZero(n: Number): (r: real)
    ensures n.Finite? ==> r == n.value
    ensures n.NaN? ==> r == 0.0
  {
    if n.Finite? then n.value else 0.0
  }

  predicate IsDigit(c: char)
  {
    '0' <= c <= '9'
  }

  predicate AllDigits(s: string)
  {
    forall i :: 0 <= i < |s| ==> IsDigit(s[i])
  }

  function DigitValue(c: char): (d: nat)
    requires IsDigit(c)
    ensures d < 10
  {
    c as int - '0' as int
  }

  function DigitChar(d: nat): (c: char)
    requires d < 10
    ensures IsDigit(c) && DigitValue(c) == d
  {
    ('0' as int + d) as char
  }

  /** The value of a string of decimal digits, most significant first. */
  function DigitsValue(ds: string): nat
    requires AllDigits(ds)
  {
    if ds == [] then 0 else DigitsValue(ds[..|ds| - 1]) * 10 + DigitValue(ds[|ds| - 1])
  }

  function Pow10(n: nat): (r: nat)
    ensures r >= 1
  {
    if n == 0 then 1 else 10 * Pow10(n - 1)
  }

  /** The length of the run of digits at the start of `s`. */
  function LeadingDigits(s: string): (n: nat)
    ensures n <= |s| && AllDigits(s[..n])
    ensures n < |s| ==> !IsDigit(s[n])
  {
    if s != [] && IsDigit(s[0]) then
      var n := 1 + LeadingDigits(s[1..]);
      assert s[..n] == [s[0]] + s[1..][..n - 1];
      n
    else 0
  }

  /** An unsigned decimal literal: digits, optionally followed by `.` and more
      digits, with at least one digit in all. */
  function ParseUnsigned(t: string): Number
  {
    var i := LeadingDigits(t);
    var whole := DigitsValue(t[..i]) as real;
    if i == |t| then
      (if i > 0 then Finite(whole) else NaN)
    else if t[i] == '.' && AllDigits(t[i + 1..]) && (i > 0 || i + 1 < |t|) then
      Finite(whole + DigitsValue(t[i + 1..]) as real / Pow10(|t| - i - 1) as real)
    else NaN
  }

  function Negate(n: Number): Number
  {
    if n.Finite? then Finite(-n.value) else NaN
  }

  /** `Number(s)` for a string: surrounding whitespace is ignored, the empty
      (or all-whitespace) string is 0, and otherwise an optionally signed
      decimal literal is read; anything else is NaN. */
  function ParseNumber(s: string): Number
  {
    var t := Trim(s);
    if t == "" then Finite(0.0)
    else if t[0] == '-' then Negate(ParseUnsigned(t[1..]))
    else if t[0] == '+' then ParseUnsigned(t[1..])
    else ParseUnsigned(t)
  }

  /** The decimal digits of a natural number, without leading zeros. */
  function IntText(n: nat): (s: string)
    ensures s != [] && AllDigits(s)
  {
    if n < 10 then [DigitChar(n)] else IntText(n / 10) + [DigitChar(n % 10)]
  }

  /** Up to `fuel` digits of the fraction `f`, stopping when nothing remains. */
  function FractionText(f: real, fuel: nat): (s: string)
    requires 0.0 <= f < 1.0
    ensures AllDigits(s)
    decreases fuel
  {
    if fuel == 0 || f == 0.0 then ""
    else
      var d := (f * 10.0).Floor;
      [DigitChar(d)] + FractionText(f * 10.0 - d as real, fuel - 1)
  }

  function UnsignedText(r: real): string
    requires r >= 0.0
  {
    var whole := r.Floor;
    var frac := FractionText(r - whole as real, 20);
    IntText(whole) + (if frac == "" then "" else "." + frac)
  }

  /** `String(n)` for a number, in plain positional notation. */
  function NumberToString(n: Number): string
  {
    match n
    case NaN => "NaN"
    case Finite(r) => if r < 0.0 then "-" + UnsignedText(-r) else UnsignedText(r)
  }

  /** `String(v)` */
  function ToText(v: Value): string
  {
    match v
    case Undefined => "undefined"
    case Null => "null"
    case Bool(b) => if b then "true" else "false"
    case Num(n) => NumberToString(n)
    case Str(s) => s
    case Compound => "[object Object]"
  }

  lemma {:induction false} DigitsValueOfIntText(n: nat)
    ensures DigitsValue(IntText(n)) == n
  {
    if n >= 10 {
      var s := IntText(n);
      var init := IntText(n / 10);
      assert s[..|s| - 1] == init;
      DigitsValueOfIntText(n / 10);
    }
  }

  lemma {:induction false} LeadingDigitsOfDigits(s: string)
    requires AllDigits(s)
    ensures LeadingDigits(s) == |s|
  {
    if s != [] {
      LeadingDigitsOfDigits(s[1..]);
    }
  }

  /** Reading back the text of a natural number gives that number. */
  lemma ParseUnsignedIntText(n: nat)
    ensures ParseUnsigned(IntText(n)) == Finite(n as real)
  {
    var s := IntText(n);
    LeadingDigitsOfDigits(s);
    assert s[..|s|] == s;
    DigitsValueOfIntText(n);
  }

  lemma UnsignedTextWhole(m: nat)
    ensures UnsignedText(m as real) == IntText(m)
  {
    assert (m as real).Floor == m;
    assert m as real - m as real == 0.0;
  }

  /** `Number(s)` of a string that has no surrounding whitespace and does not
      start with a sign reads it as an unsigned literal. */
  lemma ParseNumberUnpadded(s: string)
    requires s != [] && !IsSpace(s[0]) && !IsSpace(s[|s| - 1])
    ensures s[0] == '-' ==> ParseNumber(s) == Negate(ParseUnsigned(s[1..]))
    ensures IsDigit(s[0]) ==> ParseNumber(s) == ParseUnsigned(s)
  {
    TrimUnpadded(s);
  }

  /** `Number(String(n))` is `n` for every whole number `n`. */
  lemma WholeNumberRoundTrip(n: int)
    ensures ParseNumber(NumberToString(Finite(n as real))) == Finite(n as real)
  {
    var m: nat := if n < 0 then -n else n;
    var digits := IntText(m);
    UnsignedTextWhole(m);
    ParseUnsignedIntText(m);
    if n < 0 {
      assert -(n as real) == m as real;
      var s := "-" + digits;
      assert NumberToString(Finite(n as real)) == s;
      assert s[1..] == digits;
      ParseNumberUnpadded(s);
    } else {
      assert NumberToString(Finite(n as real)) == digits;
      ParseNumberUnpadded(digits);
    }
  }
}
