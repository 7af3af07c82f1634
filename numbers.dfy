/** Python's number conversions as the scripts use them: `int(text)`,
    `float(text)` (decimal notation only), `str(int)`, two-place `round` and
    `int(x)` on a float, with floats taken as exact reals. */
module Numbers {
  import opened Wrappers
  import opened Strings

  predicate IsDigit(c: char) {
    '0' <= c <= '9'
  }

  predicate AllDigits(s: string) {
    forall i :: 0 <= i < |s| ==> IsDigit(s[i])
  }

  function DigitValue(c: char): (d: nat)
    requires IsDigit(c)
    ensures d < 10
  {
    (c as int) - ('0' as int)
  }

  function DigitChar(d: nat): (c: char)
    requires d < 10
    ensures IsDigit(c) && DigitValue(c) == d
  {
    (('0' as int) + d) as char
  }

  /** The value of a string of decimal digits, most significant first. */
  function DigitsValue(s: string): nat
    requires AllDigits(s)
  {
    if |s| == 0 then 0 else 10 * DigitsValue(s[..|s| - 1]) + DigitValue(s[|s| - 1])
  }

  /** `str(n)` for a non-negative integer. */
  function NatToString(n: nat): string {
    if n < 10 then [DigitChar(n)] else NatToString(n / 10) + [DigitChar(n % 10)]
  }

  /** `str(n)` is digits whose value is `n`. */
  lemma {:induction false} NatToStringDigits(n: nat)
    ensures NatToString(n) != [] && AllDigits(NatToString(n))
    ensures DigitsValue(NatToString(n)) == n
  {
    if n >= 10 {
      NatToStringDigits(n / 10);
      var high := NatToString(n / 10);
      var r := high + [DigitChar(n % 10)];
      assert r[..|r| - 1] == high;
    }
  }

  /** `str(n)` has no leading zero, except for `n == 0` itself. */
  lemma {:induction false} NatToStringNoLeadingZero(n: nat)
    ensures NatToString(n)[0] == '0' ==> n == 0
  {
    if n >= 10 {
      NatToStringNoLeadingZero(n / 10);
      NatToStringDigits(n / 10);
    }
  }

  /** `str(n)` */
  function IntToString(n: int): string {
    if n < 0 then "-" + NatToString(-n) else NatToString(n)
  }

  /** `str(n)` is an optional '-' then digits: no whitespace at its ends
      and none of the separators the scripts split on. */
  lemma IntToStringChars(n: int)
    ensures IntToString(n) != [] && !IsSpace(IntToString(n)[0]) && !IsSpace(IntToString(n)[|IntToString(n)| - 1])
    ensures forall c :: c in IntToString(n) ==> c == '-' || IsDigit(c)
  {
    NatToStringDigits(if n < 0 then -n else n);
  }

  /** `int(s)`: surrounding whitespace, an optional sign, one or more
      digits. */
  function ParseInt(s: string): Option<int> {
    var t := Strip(s);
    if |t| > 0 && (t[0] == '-' || t[0] == '+') then
      if |t| > 1 && AllDigits(t[1..]) then
        var v: int := DigitsValue(t[1..]);
        Some(if t[0] == '-' then -v else v)
      else None
    else if |t| > 0 && AllDigits(t) then Some(DigitsValue(t))
    else None
  }

  /** `int()` of plain digits is their value. */
  lemma ParseIntDigits(d: string)
    requires d != [] && AllDigits(d)
    ensures ParseInt(d) == Some(DigitsValue(d))
  {
    assert IsDigit(d[0]) && IsDigit(d[|d| - 1]);
    StripUntouched(d);
  }

  /** `int()` of a minus sign and digits is their value negated. */
  lemma ParseIntNegDigits(s: string, d: string)
    requires s == "-" + d && d != [] && AllDigits(d)
    ensures ParseInt(s) == Some(-(DigitsValue(d) as int))
  {
    assert s[1..] == d;
    assert IsDigit(s[|s| - 1]);
    StripUntouched(s);
  }

  /** `int(str(n)) == n` */
  lemma {:induction false} ParseIntToString(n: int)
    ensures ParseInt(IntToString(n)) == Some(n)
  {
    var m: nat := if n < 0 then -n else n;
    var d := NatToString(m);
    assert d != [] && AllDigits(d) && DigitsValue(d) == m by {
      NatToStringDigits(m);
    }
    if n < 0 {
      ParseIntNegDigits(IntToString(n), d);
    } else {
      ParseIntDigits(d);
    }
  }

  /** The value of the digits after a decimal point: `0.d1d2...dk`. */
  function FractionValue(s: string): (v: real)
    requires AllDigits(s)
    ensures 0.0 <= v <= 1.0
  {
    if |s| == 0 then 0.0 else (DigitValue(s[0]) as real + FractionValue(s[1..])) / 10.0
  }

  /** The unsigned part of a decimal literal: digits, optionally a point and
      more digits, with at least one digit in all. */
  function DecimalBody(u: string): Option<real> {
    var parts := SplitOn(u, '.');
    if |parts| == 1 then
      if u != [] && AllDigits(u) then Some(DigitsValue(u) as real) else None
    else if |parts| == 2 && AllDigits(parts[0]) && AllDigits(parts[1])
         && (parts[0] != [] || parts[1] != []) then
      Some(DigitsValue(parts[0]) as real + FractionValue(parts[1]))
    else None
  }

  /** `float(s)` on decimal notation: surrounding whitespace, an optional
      sign, then a decimal body. */
  function ParseReal(s: string): Option<real> {
    var t := Strip(s);
    if |t| > 0 && (t[0] == '-' || t[0] == '+') then
      match DecimalBody(t[1..])
      case Some(v) => Some(if t[0] == '-' then -v else v)
      case None => None
    else DecimalBody(t)
  }

  lemma DecimalBodyOfDigits(u: string)
    requires u != [] && AllDigits(u)
    ensures DecimalBody(u) == Some(DigitsValue(u) as real)
  {
    assert '.' !in u by {
      forall i | 0 <= i < |u| ensures u[i] != '.' {
        assert IsDigit(u[i]);
      }
    }
    SplitOnNoSep(u, '.');
  }

  /** Text that `int()` accepts, `float()` accepts with the same value. */
  lemma ParseRealOfInt(s: string, n: int)
    requires ParseInt(s) == Some(n)
    ensures ParseReal(s) == Some(n as real)
  {
    var t := Strip(s);
    if t[0] == '-' || t[0] == '+' {
      DecimalBodyOfDigits(t[1..]);
    } else {
      DecimalBodyOfDigits(t);
    }
  }

  /** Python's `round(y)`: nearest integer, ties to the even one. */
  function RoundHalfEven(y: real): (r: int)
    ensures -0.5 <= r as real - y <= 0.5
  {
    var f := y.Floor;
    var d := y - f as real;
    if d > 0.5 then f + 1
    else if d < 0.5 then f
    else if f % 2 == 0 then f
    else f + 1
  }

  /** Rounding stays inside any integer bounds around its argument. */
  lemma RoundHalfEvenBounds(y: real, lo: int, hi: int)
    requires lo as real <= y <= hi as real
    ensures lo <= RoundHalfEven(y) <= hi
  {
    var f := y.Floor;
    assert lo <= f <= hi;
    if f == hi {
      assert y == hi as real;
    }
  }

  /** `round(x, 2)` with `x` taken as an exact real. */
  function Round2(x: real): (r: real)
    ensures -0.005 <= r - x <= 0.005
  {
    RoundHalfEven(x * 100.0) as real / 100.0
  }

  /** `int(x)` on a float: truncation toward zero. */
  function Trunc(x: real): (r: int)
    ensures x >= 0.0 ==> 0 <= r && r as real <= x < r as real + 1.0
    ensures x < 0.0 ==> r <= 0 && r as real - 1.0 < x <= r as real
  {
    if x >= 0.0 then x.Floor else -((-x).Floor)
  }
}
