// Number parsing and rendering shared by the models: Python's int()/float()/
// Decimal() on strings (whole-string, whitespace allowed around), JavaScript's
// parseInt/parseFloat (longest numeric prefix, NaN when there is none), the
// decimal rendering of integers (str(n) / String(n)), and Decimal.quantize
// with ROUND_HALF_UP.
//
// Exponents, "inf"/"nan"/"Infinity" spellings and digit-group underscores are
// not part of this model.
module NumParse {
  import opened Wrappers
  import opened Text

  function DigitVal(c: char): nat
    requires IsDigit(c)
  {
    c as int - '0' as int
  }

  function DigitChar(d: nat): (c: char)
    requires d < 10
    ensures IsDigit(c) && DigitVal(c) == d
  {
    ('0' as int + d) as char
  }

  function Pow10(n: nat): (r: nat)
    ensures r >= 1
  {
    if n == 0 then 1 else 10 * Pow10(n - 1)
  }

  /** The value of a string of decimal digits ("" counts as 0). */
  function DigitsValue(s: string): nat
    requires AllDigits(s)
  {
    if s == [] then 0 else 10 * DigitsValue(s[..|s| - 1]) + DigitVal(s[|s| - 1])
  }

  /** The decimal rendering of a natural number: no leading zero, "0" for zero. */
  function NatToString(n: nat): (r: string)
    ensures AllDigits(r) && |r| >= 1
    ensures r[0] == '0' ==> n == 0
  {
    if n < 10 then [DigitChar(n)] else NatToString(n / 10) + [DigitChar(n % 10)]
  }

  /** A digit string with no superfluous leading zero. */
  predicate Canonical(s: string)
  {
    AllDigits(s) && |s| >= 1 && (s[0] == '0' ==> |s| == 1)
  }

  lemma {:induction false} NatToStringRoundTrip(n: nat)
    ensures DigitsValue(NatToString(n)) == n
    ensures Canonical(NatToString(n))
  {
    var r := NatToString(n);
    if n >= 10 {
      NatToStringRoundTrip(n / 10);
      assert r[..|r| - 1] == NatToString(n / 10);
    }
  }

  /** str() of an int: a minus sign before the digits of a negative; int()
      reads it back. */
  function IntToString(i: int): (r: string)
    ensures PyInt(r) == Some(i)
    ensures |r| >= 1 && (r[0] == '-' <==> i < 0)
  {
    var n: nat := if i < 0 then -i else i;
    var d := NatToString(n);
    NatToStringRoundTrip(n);
    var r := if i < 0 then "-" + d else d;
    assert Trimmed(r);
    TrimKeepsTrimmed(r);
    assert r[0] == '-' <==> i < 0;
    assert Sign(r).1 == d;
    r
  }

  lemma {:induction false} LeadingNonZeroPositive(s: string)
    requires AllDigits(s) && |s| >= 1 && s[0] != '0'
    ensures DigitsValue(s) >= Pow10(|s| - 1)
  {
    if |s| > 1 {
      LeadingNonZeroPositive(s[..|s| - 1]);
    }
  }

  /** Every canonical digit string is the rendering of its value. */
  lemma {:induction false} CanonicalRoundTrip(s: string)
    requires Canonical(s)
    ensures NatToString(DigitsValue(s)) == s
  {
    if |s| > 1 {
      var p := s[..|s| - 1];
      var d := DigitVal(s[|s| - 1]);
      LeadingNonZeroPositive(p);
      CanonicalRoundTrip(p);
      var v := DigitsValue(s);
      assert v == 10 * DigitsValue(p) + d;
      assert v / 10 == DigitsValue(p) && v % 10 == d;
      assert s == p + [s[|s| - 1]];
    }
  }

  /** The longest prefix of s made of digits. */
  function LeadingDigits(s: string): (r: string)
    ensures AllDigits(r) && |r| <= |s| && r == s[..|r|]
    ensures |r| == |s| || !IsDigit(s[|r|])
  {
    if s == [] || !IsDigit(s[0]) then []
    else
      var t := LeadingDigits(s[1..]);
      assert [s[0]] + t == s[..|t| + 1];
      [s[0]] + t
  }

  /** A magnitude with the sign Sign read applied (-1 negates). */
  function Signed(sign: int, v: int): int
  {
    if sign < 0 then -v else v
  }

  function SignedReal(sign: int, v: real): real
  {
    if sign < 0 then -v else v
  }

  /** Reads an optional sign; the sign factor and the rest of the string. */
  function Sign(s: string): (int, string)
  {
    if |s| > 0 && s[0] == '-' then (-1, s[1..])
    else if |s| > 0 && s[0] == '+' then (1, s[1..])
    else (1, s)
  }

  /** Python int(s) on a string: an optional sign and one or more digits, with
      surrounding whitespace; anything else raises ValueError (None). */
  function PyInt(s: string): Option<int>
  {
    var (sign, body) := Sign(Trim(s));
    if body != [] && AllDigits(body) then Some(Signed(sign, DigitsValue(body))) else None
  }

  /** JavaScript parseInt(s, 10): leading whitespace, an optional sign, then the
      longest run of digits; no digits gives NaN (None). */
  function JsParseInt(s: string): Option<int>
  {
    JsIntPrefix(TrimStart(s))
  }

  /** parseInt after the leading whitespace is skipped. */
  function JsIntPrefix(t: string): Option<int>
  {
    var (sign, body) := Sign(t);
    var d := LeadingDigits(body);
    if d == [] then None else Some(Signed(sign, DigitsValue(d)))
  }

  /** Both parsers read a plain digit string as its value. */
  lemma ParseIntOfDigits(s: string)
    requires AllDigits(s) && s != []
    ensures PyInt(s) == Some(DigitsValue(s))
    ensures JsParseInt(s) == Some(DigitsValue(s))
  {
    assert !IsSpace(s[0]) && !IsSpace(s[|s| - 1]);
    assert TrimStart(s) == s;
    assert TrimEnd(s) == s;
    assert Sign(s) == (1, s);
    LeadingDigitsOfDigits(s);
  }

  /** The value of a fraction-digit string: "25" is 0.25. */
  function FracValue(f: string): real
    requires AllDigits(f)
  {
    DigitsValue(f) as real / Pow10(|f|) as real
  }

  /** JavaScript parseFloat(s): leading whitespace, an optional sign, then
      digits with an optional "." and fraction digits; at least one digit is
      needed, otherwise NaN (None). */
  function JsParseFloat(s: string): Option<real>
  {
    JsFloatPrefix(TrimStart(s))
  }

  /** parseFloat after the leading whitespace is skipped. */
  function JsFloatPrefix(t: string): Option<real>
  {
    var (sign, body) := Sign(t);
    var ip := LeadingDigits(body);
    var rest := body[|ip|..];
    var fp := if |rest| > 0 && rest[0] == '.' then LeadingDigits(rest[1..]) else [];
    if ip == [] && fp == [] then None
    else Some(SignedReal(sign, DigitsValue(ip) as real + FracValue(fp)))
  }

  /** Python float(s) / Decimal(s) on a string: the whole trimmed string must be
      an optional sign, digits, an optional "." and fraction digits, with at
      least one digit; otherwise the conversion raises (None). */
  function PyDecimal(s: string): Option<real>
  {
    var (sign, body) := Sign(Trim(s));
    var ip := LeadingDigits(body);
    var rest := body[|ip|..];
    if rest == [] then
      if ip == [] then None else Some(SignedReal(sign, DigitsValue(ip) as real))
    else if rest[0] == '.' && AllDigits(rest[1..]) && (ip != [] || |rest| > 1) then
      Some(SignedReal(sign, DigitsValue(ip) as real + FracValue(rest[1..])))
    else None
  }

  lemma PyDecimalOfDigits(s: string)
    requires AllDigits(s) && s != []
    ensures PyDecimal(s) == Some(DigitsValue(s) as real)
  {
    assert !IsSpace(s[0]) && !IsSpace(s[|s| - 1]);
    assert TrimStart(s) == s;
    assert TrimEnd(s) == s;
    assert Sign(s) == (1, s);
    LeadingDigitsOfDigits(s);
  }

  /**
   * JavaScript's Number(s) for the finite decimal texts: text that is
   * empty or all whitespace is 0, otherwise an optionally signed decimal
   * between whitespace; None stands for a result that is not finite.
   */
  function JsNumber(s: string): Option<real>
  {
    if NoSpaceFree(s) then Some(0.0) else PyDecimal(s)
  }

  /** Number ignores surrounding whitespace. */
  lemma JsNumberTrim(s: string)
    ensures JsNumber(Trim(s)) == JsNumber(s)
  {
    TrimEmpty(s);
    TrimTrimmed(s);
    TrimKeepsTrimmed(Trim(s));
    TrimEmpty(Trim(s));
  }

  /** A run of digits is read as its value. */
  lemma JsNumberOfDigits(s: string)
    requires AllDigits(s) && s != []
    ensures JsNumber(s) == Some(DigitsValue(s) as real)
  {
    assert !IsSpace(s[0]);
    PyDecimalOfDigits(s);
  }

  lemma {:induction false} LeadingDigitsOfDigits(s: string)
    requires AllDigits(s)
    ensures LeadingDigits(s) == s
  {
    if s != [] {
      LeadingDigitsOfDigits(s[1..]);
    }
  }

  /** The digit run of a string stops at the first character that is not a digit. */
  lemma {:induction false} LeadingDigitsThen(a: string, t: string)
    requires AllDigits(a) && (t == [] || !IsDigit(t[0]))
    ensures LeadingDigits(a + t) == a
  {
    if a == [] {
      assert a + t == t;
    } else {
      assert (a + t)[0] == a[0] && (a + t)[1..] == a[1..] + t;
      LeadingDigitsThen(a[1..], t);
    }
  }

  /** parseInt on a string that starts with a digit reads its digit run. */
  lemma JsParseIntDigitFirst(s: string)
    requires s != [] && IsDigit(s[0])
    ensures JsParseInt(s) == Some(DigitsValue(LeadingDigits(s)))
  {
    assert TrimStart(s) == s;
    assert Sign(s) == (1, s);
  }

  /** parseInt reads the leading digits and ignores what follows them. */
  lemma JsParseIntLeading(a: string, t: string)
    requires AllDigits(a) && a != [] && (t == [] || !IsDigit(t[0]))
    ensures JsParseInt(a + t) == Some(DigitsValue(a))
  {
    assert (a + t)[0] == a[0];
    JsParseIntDigitFirst(a + t);
    LeadingDigitsThen(a, t);
  }

  /** Truncation toward zero (Python int() on a float or Decimal). */
  function Trunc(x: real): int
  {
    if x >= 0.0 then x.Floor else -((-x).Floor)
  }

  lemma TruncProps(x: real)
    ensures x >= 0.0 ==> 0.0 <= x - Trunc(x) as real < 1.0
    ensures x < 0.0 ==> 0.0 <= Trunc(x) as real - x < 1.0
    ensures (Trunc(x) > 0) <==> (x >= 1.0)
  {
  }

  /** Decimal.quantize(Decimal(10) ** -places, ROUND_HALF_UP): the number of
      units of 10^-places nearest to x, ties away from zero. */
  function QuantizeUnits(x: real, places: nat): int
  {
    var scale := Pow10(places) as real;
    if x >= 0.0 then (x * scale + 0.5).Floor else -(((-x) * scale + 0.5).Floor)
  }

  function QuantizeHalfUp(x: real, places: nat): real
  {
    QuantizeUnits(x, places) as real / Pow10(places) as real
  }

  /** The quantised value is a whole number of units within half a unit of x
      (ties round away from zero) and keeps the sign of x. */
  lemma QuantizeHalfUpBounds(x: real, places: nat)
    ensures var d := QuantizeUnits(x, places) as real - x * Pow10(places) as real;
      if x >= 0.0 then -0.5 < d <= 0.5 else -0.5 <= d < 0.5
    ensures QuantizeHalfUp(x, places) * Pow10(places) as real == QuantizeUnits(x, places) as real
    ensures x >= 0.0 ==> QuantizeHalfUp(x, places) >= 0.0
    ensures x <= 0.0 ==> QuantizeHalfUp(x, places) <= 0.0
  {
    QuantizeUnitsBounds(x, places);
    DivCancel(QuantizeUnits(x, places) as real, Pow10(places) as real);
    QuantizeUnitsSign(x, places);
    DivKeepsSign(QuantizeUnits(x, places) as real, Pow10(places) as real);
  }

  lemma QuantizeUnitsBounds(x: real, places: nat)
    ensures var d := QuantizeUnits(x, places) as real - x * Pow10(places) as real;
      if x >= 0.0 then -0.5 < d <= 0.5 else -0.5 <= d < 0.5
  {
    var s := Pow10(places) as real;
    if x < 0.0 {
      NegateMul(x, s);
    }
  }

  lemma QuantizeUnitsSign(x: real, places: nat)
    ensures x >= 0.0 ==> QuantizeUnits(x, places) >= 0
    ensures x <= 0.0 ==> QuantizeUnits(x, places) <= 0
  {
    var s := Pow10(places) as real;
    if x >= 0.0 {
      MulNonNegative(x, s);
    } else {
      MulNonNegative(-x, s);
    }
  }

  lemma MulNonNegative(x: real, s: real)
    requires x >= 0.0 && s >= 0.0
    ensures x * s >= 0.0
  {
  }

  lemma NegateMul(x: real, s: real)
    ensures (-x) * s == -(x * s)
  {
  }

  lemma DivCancel(a: real, s: real)
    requires s > 0.0
    ensures (a / s) * s == a
  {
  }

  lemma DivKeepsSign(a: real, s: real)
    requires s > 0.0
    ensures a >= 0.0 ==> a / s >= 0.0
    ensures a <= 0.0 ==> a / s <= 0.0
  {
  }

  /** The rounding error, measured in units of the last place. */
  lemma DiffOverScale(u: real, x: real, s: real)
    requires s > 0.0
    ensures u / s - x == (u - x * s) / s
  {
  }

  /** The number of units is within half a unit of x. */
  lemma QuantizeUnitsNear(x: real, places: nat)
    ensures -0.5 <= QuantizeUnits(x, places) as real - x * Pow10(places) as real <= 0.5
  {
    QuantizeHalfUpBounds(x, places);
  }

  /** parseFloat reads a plain digit string as its value. */
  lemma {:induction false} JsParseFloatOfDigits(s: string)
    requires AllDigits(s) && s != []
    ensures JsParseFloat(s) == Some(DigitsValue(s) as real)
  {
    assert TrimStart(s) == s by { assert !IsSpace(s[0]); }
    assert Sign(s) == (1, s) by { assert s[0] != '-' && s[0] != '+'; }
    assert LeadingDigits(s) == s by { LeadingDigitsOfDigits(s); }
    assert s[|s|..] == [];
    assert FracValue([]) == 0.0;
  }

  /** parseFloat of text with no leading space and no sign reads a value
      that is never negative. */
  lemma JsParseFloatUnsigned(s: string)
    requires s == [] || (!IsSpace(s[0]) && s[0] != '-' && s[0] != '+')
    ensures JsParseFloat(s).Some? ==> JsParseFloat(s).value >= 0.0
  {
    assert TrimStart(s) == s;
    assert Sign(s) == (1, s);
    var ip := LeadingDigits(s);
    var rest := s[|ip|..];
    var fp := if |rest| > 0 && rest[0] == '.' then LeadingDigits(rest[1..]) else [];
    assert FracValue(fp) >= 0.0 by {
      assert Pow10(|fp|) as real > 0.0;
    }
  }

  /** parseFloat of text that is blank or starts with a letter is NaN. */
  lemma JsParseFloatNoNumber(s: string)
    requires TrimStart(s) == [] || IsLetter(TrimStart(s)[0])
    ensures JsParseFloat(s) == None
  {
    JsFloatPrefixNoNumber(TrimStart(s));
  }

  /** The text after the whitespace is empty or starts with a letter. */
  lemma JsFloatPrefixNoNumber(t: string)
    requires t == [] || IsLetter(t[0])
    ensures JsFloatPrefix(t) == None
  {
    assert Sign(t) == (1, t);
    assert LeadingDigits(t) == [];
  }

  lemma ScaledBound(e: real, d: real, scale: real)
    requires scale >= 1.0 && -0.5 <= d <= 0.5 && e == d / scale
    ensures -(0.5 / scale) <= e <= 0.5 / scale
  {
    assert -0.5 / scale == -(0.5 / scale);
  }

  /** Quantising moves a value by at most half a unit of the last place. */
  lemma QuantizeClose(x: real, places: nat)
    ensures var h := 0.5 / Pow10(places) as real;
      -h <= QuantizeHalfUp(x, places) - x <= h
  {
    var scale := Pow10(places) as real;
    var u := QuantizeUnits(x, places) as real;
    QuantizeUnitsNear(x, places);
    assert QuantizeHalfUp(x, places) == u / scale;
    CloseFromUnits(QuantizeHalfUp(x, places), x, u, scale);
  }

  /** A whole number of units within half a unit of x * scale, divided by the scale, is within half a unit of x. */
  lemma CloseFromUnits(q: real, x: real, u: real, scale: real)
    requires scale >= 1.0 && -0.5 <= u - x * scale <= 0.5 && q == u / scale
    ensures -(0.5 / scale) <= q - x <= 0.5 / scale
  {
    DiffOverScale(u, x, scale);
    ScaledBound(q - x, u - x * scale, scale);
  }

  /** Quantising to four places moves a value by at most 0.00005. */
  lemma QuantizeClose4(x: real)
    ensures -0.00005 <= QuantizeHalfUp(x, 4) - x <= 0.00005
  {
    QuantizeClose(x, 4);
    assert Pow10(4) == 10000;
  }
}
