/**
 * The number conversions of the JavaScript runtime that the core uses:
 * `parseFloat` on ingredient amounts and `toFixed` on the range average.
 * Numbers are exact reals here rather than binary floating point.
 */
module Numbers {
  import opened Wrappers
  import opened Text

  function DigitValue(c: char): nat requires IsDigit(c) { c as int - '0' as int }

  predicate AllDigits(ds: string) { forall k :: 0 <= k < |ds| ==> IsDigit(ds[k]) }

  /** The value of a string of decimal digits, most significant first. */
  function DigitsValue(ds: string): nat
    requires AllDigits(ds)
  {
    if |ds| == 0 then 0 else DigitsValue(ds[..|ds| - 1]) * 10 + DigitValue(ds[|ds| - 1])
  }

  /** The value of the digits after a decimal point. */
  function FractionValue(ds: string): real
    requires AllDigits(ds)
  {
    if |ds| == 0 then 0.0 else (DigitValue(ds[0]) as real + FractionValue(ds[1..])) / 10.0
  }

  /** `m` times ten to the power `e`. */
  function Scale(m: real, e: int): real
    decreases if e >= 0 then e else -e
  {
    if e == 0 then m else if e > 0 then Scale(m * 10.0, e - 1) else Scale(m / 10.0, e + 1)
  }

  /**
   * The signed exponent `[eE][+-]?\d+` that starts at `m`, with the index where it
   * ends; an `e` not followed by digits is not part of the number.
   */
  function ExponentAt(s: string, m: nat): (r: (int, nat))
    requires m <= |s|
    ensures m <= r.1 <= |s|
  {
    if m < |s| && (s[m] == 'e' || s[m] == 'E') then
      var signed := m + 1 < |s| && (s[m + 1] == '+' || s[m + 1] == '-');
      var start := if signed then m + 2 else m + 1;
      var end := DigitRunEnd(s, start);
      if end == start then (0, m)
      else
        var v: int := DigitsValue(s[start..end]);
        (if signed && s[m + 1] == '-' then -v else v, end)
    else (0, m)
  }

  /**
   * `parseFloat`: skip leading white space, then read the longest prefix that is
   * a decimal literal with an optional sign, fraction and exponent. `None` is NaN.
   */
  function ParseFloat(s: string): Option<real> {
    var i := SpaceRunEnd(s, 0);
    if i < |s| && (s[i] == '-' || s[i] == '+') then
      match UnsignedAt(s, i + 1)
      case None => None
      case Some(v) => Some(if s[i] == '-' then -v else v)
    else UnsignedAt(s, i)
  }

  /** The unsigned decimal literal `\d*(\.\d*)?` (with at least one digit) and exponent at `j`. */
  function UnsignedAt(s: string, j: nat): Option<real>
    requires j <= |s|
  {
    var intEnd := DigitRunEnd(s, j);
    var hasDot := intEnd < |s| && s[intEnd] == '.';
    var fracEnd := if hasDot then DigitRunEnd(s, intEnd + 1) else intEnd;
    if intEnd == j && (!hasDot || fracEnd == intEnd + 1) then None
    else
      var mantissa := DigitsValue(s[j..intEnd]) as real
        + (if hasDot then FractionValue(s[intEnd + 1..fracEnd]) else 0.0);
      Some(Scale(mantissa, ExponentAt(s, fracEnd).0))
  }

  /** `x % 1 === 0` for a number `x`. */
  predicate IsIntegral(x: real) { x.Floor as real == x }

  /**
   * `x.toFixed(1)` for `x >= 0`: the `n` with `n/10` nearest to `x` (the larger
   * one on a tie), written with one digit after the point.
   */
  function ToFixed1(x: real): string
    requires x >= 0.0
  {
    var n := (x * 10.0 + 0.5).Floor;
    NatToString(n / 10) + "." + [DigitChar(n % 10)]
  }

  /**
   * A number written as amount text: `x % 1 === 0 ? x.toFixed(0) : x.toFixed(1)`
   * (the range rule) or `x % 1 === 0 ? x.toString() : x.toFixed(1)` (the shopping
   * list), which agree on every whole number below 10^21; the sign goes in front.
   */
  function FormatNumber(x: real): string {
    if x < 0.0 then "-" + FormatMagnitude(-x) else FormatMagnitude(x)
  }

  function FormatMagnitude(x: real): string
    requires x >= 0.0
  {
    if IsIntegral(x) then NatToString(x.Floor) else ToFixed1(x)
  }

  /** `(parseFloat(a) + parseFloat(b)) / 2` written as the range rule writes it; NaN stays NaN. */
  function AverageText(a: Option<real>, b: Option<real>): string {
    if a.Some? && b.Some? then FormatNumber((a.value + b.value) / 2.0) else "NaN"
  }

  // ------------------------------------------------------------ reading back

  lemma {:induction false} DigitsOfNat(n: nat)
    ensures AllDigits(NatToString(n)) && DigitsValue(NatToString(n)) == n
  {
    var s := NatToString(n);
    if n >= 10 {
      DigitsOfNat(n / 10);
      assert s[..|s| - 1] == NatToString(n / 10);
    }
  }

  lemma DigitPrefixRun(ds: string, rest: string)
    requires AllDigits(ds)
    requires |rest| == 0 || !IsDigit(rest[0])
    ensures DigitRunEnd(ds + rest, 0) == |ds|
  {
    var s := ds + rest;
    assert forall k :: 0 <= k < |ds| ==> IsDigit(s[k]);
    assert |rest| > 0 ==> !IsDigit(s[|ds|]);
  }

  /** `parseFloat` of the decimal text `digits + rest`, where `rest` does not continue the number. */
  lemma ParseDigitsThen(ds: string, rest: string)
    requires |ds| >= 1 && AllDigits(ds)
    requires |rest| == 0 || (!IsDigit(rest[0]) && rest[0] != '.' && rest[0] != 'e' && rest[0] != 'E')
    ensures ParseFloat(ds + rest) == Some(DigitsValue(ds) as real)
  {
    var s := ds + rest;
    assert s[0] == ds[0] && IsDigit(s[0]);
    assert SpaceRunEnd(s, 0) == 0;
    DigitPrefixRun(ds, rest);
    var k := |ds|;
    assert s[0..k] == ds;
    assert !(k < |s| && s[k] == '.');
    assert ExponentAt(s, k).0 == 0;
    assert UnsignedAt(s, 0) == Some(DigitsValue(ds) as real);
  }

  /** A whole number written by `NatToString` reads back exactly. */
  lemma ParseNatToString(n: nat)
    ensures ParseFloat(NatToString(n)) == Some(n as real)
  {
    DigitsOfNat(n);
    assert NatToString(n) + "" == NatToString(n);
    ParseDigitsThen(NatToString(n), "");
  }

  lemma UnsignedWithFraction(s: string, j: nat, intEnd: nat, fracEnd: nat)
    requires j <= |s| && intEnd == DigitRunEnd(s, j) && intEnd < |s| && s[intEnd] == '.'
    requires fracEnd == DigitRunEnd(s, intEnd + 1) && fracEnd > intEnd + 1
    ensures UnsignedAt(s, j) == Some(Scale(DigitsValue(s[j..intEnd]) as real
              + FractionValue(s[intEnd + 1..fracEnd]), ExponentAt(s, fracEnd).0))
  {
  }

  /** `parseFloat` of a text made of digits, a point and one more digit, seen through its positions. */
  lemma ParseOneDecimalAt(s: string, k: nat, ds: string, d: nat)
    requires k >= 1 && |s| == k + 2 && AllDigits(ds) && s[..k] == ds && s[k] == '.'
    requires d < 10 && s[k + 1] == DigitChar(d)
    requires DigitRunEnd(s, 0) == k && DigitRunEnd(s, k + 1) == k + 2
    ensures ParseFloat(s) == Some(DigitsValue(ds) as real + d as real / 10.0)
  {
    assert DigitValue(s[k + 1]) == d;
    assert s[..k][0] == s[0];
    assert SpaceRunEnd(s, 0) == 0;
    UnsignedWithFraction(s, 0, k, k + 2);
    assert s[0..k] == s[..k];
    assert s[k + 1..k + 2] == [s[k + 1]];
    assert FractionValue([s[k + 1]]) == DigitValue(s[k + 1]) as real / 10.0 by {
      assert [s[k + 1]][1..] == [];
    }
  }

  lemma OneDecimalShape(ds: string, c: char)
    requires |ds| >= 1 && AllDigits(ds) && IsDigit(c)
    ensures var s := ds + "." + [c];
      |s| == |ds| + 2 && s[..|ds|] == ds && s[|ds|] == '.' && s[|ds| + 1] == c
      && DigitRunEnd(s, 0) == |ds| && DigitRunEnd(s, |ds| + 1) == |ds| + 2
  {
    var s := ds + "." + [c];
    assert ds + ("." + [c]) == s;
    DigitPrefixRun(ds, "." + [c]);
  }

  /** One digit after the point reads back as its tenth. */
  lemma ParseOneDecimal(s: string, ds: string, d: nat)
    requires |ds| >= 1 && AllDigits(ds) && d < 10 && s == ds + "." + [DigitChar(d)]
    ensures ParseFloat(s) == Some(DigitsValue(ds) as real + d as real / 10.0)
  {
    OneDecimalShape(ds, DigitChar(d));
    ParseOneDecimalAt(s, |ds|, ds, d);
  }

  /**
   * A non-negative number written as amount text reads back, through `parseFloat`,
   * as a number within a twentieth of it.
   */
  lemma FormatNumberReadsBack(x: real)
    requires x >= 0.0
    ensures ParseFloat(FormatNumber(x)).Some?
    ensures var y := ParseFloat(FormatNumber(x)).value; x - 0.05 < y <= x + 0.05
  {
    if IsIntegral(x) {
      ParseNatToString(x.Floor);
    } else {
      var n := (x * 10.0 + 0.5).Floor;
      assert n >= 0;
      DigitsOfNat(n / 10);
      ParseOneDecimal(ToFixed1(x), NatToString(n / 10), n % 10);
      assert (n / 10) as real + (n % 10) as real / 10.0 == n as real / 10.0;
    }
  }
}
