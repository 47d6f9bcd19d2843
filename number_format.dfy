/** Exact fixed-point model of the JavaScript number formatting the billing
    server relies on: `Number.prototype.toFixed(4)` (ECMA-262, section
    21.1.3.3), `parseFloat` of the text it produces, and the decimal text of
    an integral number inside a template literal.

    Every amount is an integer count of units of 1/10000. */
module NumberFormat {

  import opened Outcomes

  /** The content of the string `x.toFixed(4)`: an optional leading "-"
      and the magnitude, rounded to a whole number of 1/10000 units. */
  datatype Fixed = Fixed(negative: bool, units: nat)

  /** The integer nearest to n / d; of two equally near, the larger one. */
  function RoundHalfUp(n: nat, d: nat): (r: nat)
    requires d > 0
    ensures -(d as int) <= 2 * (n - d * r) < d
  {
    var q := (2 * n + d) / (2 * d);
    assert 2 * n + d == 2 * d * q + (2 * n + d) % (2 * d);
    q
  }

  /** `x.toFixed(4)` for the number x whose value in 1/10000 units is
      n / d: "If x < 0, then let s be "-" and x be -x", then the integer
      nearest to x * 10^4, taking the larger of two equally near ones. */
  function ToFixed4(n: int, d: nat): (f: Fixed)
    requires d > 0
    ensures f.negative <==> n < 0
    ensures var m := if n < 0 then -n else n; -(d as int) <= 2 * (m - d * f.units) < d
  {
    Fixed(n < 0, RoundHalfUp(if n < 0 then -n else n, d))
  }

  /** `parseFloat` of the text of f, in 1/10000 units ("-0.0000" reads as 0). */
  function ParseFloat(f: Fixed): (v: int)
    ensures v == 0 <==> f.units == 0
    ensures v < 0 <==> f.negative && f.units > 0
  {
    if f.negative then -(f.units as int) else f.units
  }

  /** An amount that already is a whole number of 1/10000 units, as
      `toFixed(4)` renders it: the rounding is exact and parseFloat
      recovers the amount. */
  lemma ExactToFixed(v: int)
    ensures ParseFloat(ToFixed4(v, 1)) == v
    ensures ToFixed4(v, 1).negative <==> v < 0
  {
  }

  // ---------------------------------------------------------------------
  // Decimal text

  predicate IsDigit(c: char) {
    '0' <= c <= '9'
  }

  function DigitChar(d: nat): (c: char)
    requires d < 10
    ensures IsDigit(c) && c as int - '0' as int == d
  {
    (d + '0' as int) as char
  }

  function DigitValue(c: char): (d: nat)
    requires IsDigit(c)
    ensures d < 10 && DigitChar(d) == c
  {
    c as int - '0' as int
  }

  /** Shortest decimal text of n: no leading zeros, "0" for zero. */
  function Digits(n: nat): (s: string)
    ensures |s| > 0 && forall i :: 0 <= i < |s| ==> IsDigit(s[i])
    decreases n
  {
    if n < 10 then [DigitChar(n)] else Digits(n / 10) + [DigitChar(n % 10)]
  }

  /** The number written by a non-empty run of digits. */
  function DigitsValue(s: string): nat
    requires forall i :: 0 <= i < |s| ==> IsDigit(s[i])
  {
    if s == [] then 0 else DigitsValue(s[..|s| - 1]) * 10 + DigitValue(s[|s| - 1])
  }

  /** The text of an integral number as a template literal shows it. */
  function IntText(i: int): (r: string)
    ensures |r| > 0 && (r[0] == '-' <==> i < 0)
    ensures forall k :: (if i < 0 then 1 else 0) <= k < |r| ==> IsDigit(r[k])
  {
    if i < 0 then "-" + Digits(-i) else Digits(i)
  }

  /** The four digits after the decimal point. */
  function Pad4(n: nat): (s: string)
    requires n < 10000
    ensures |s| == 4 && forall i :: 0 <= i < 4 ==> IsDigit(s[i])
  {
    [DigitChar(n / 1000), DigitChar(n / 100 % 10), DigitChar(n / 10 % 10), DigitChar(n % 10)]
  }

  /** The string returned by `toFixed(4)`. */
  function FixedText(f: Fixed): (r: string)
    ensures |r| >= 6 && (r[0] == '-' <==> f.negative)
    ensures r[|r| - 5] == '.' && forall k :: |r| - 4 <= k < |r| ==> IsDigit(r[k])
  {
    var sign := if f.negative then "-" else "";
    var whole := Digits(f.units / 10000);
    var fraction := Pad4(f.units % 10000);
    var r := sign + (whole + ("." + fraction));
    assert r[|sign|] == whole[0];
    assert r[|r| - 5..] == "." + fraction;
    r
  }

  // ---------------------------------------------------------------------
  // Reading the text back

  /** Number of leading digits of s. */
  function DigitRun(s: string): (k: nat)
    ensures k <= |s|
    ensures forall i :: 0 <= i < k ==> IsDigit(s[i])
    ensures k < |s| ==> !IsDigit(s[k])
  {
    if s != [] && IsDigit(s[0]) then 1 + DigitRun(s[1..]) else 0
  }

  /** Separates an optional leading "-" from the rest of s. */
  function SplitSign(s: string): (bool, string) {
    if |s| > 0 && s[0] == '-' then (true, s[1..]) else (false, s)
  }

  /** Reads a maximal non-empty run of digits; returns the number and what
      follows it. */
  function ParseNat(s: string): Option<(nat, string)> {
    var k := DigitRun(s);
    if k == 0 then None else Some((DigitsValue(s[..k]), s[k..]))
  }

  /** Reads an optional "-" and a maximal non-empty run of digits. */
  function ParseInt(s: string): Option<(int, string)> {
    var (neg, t) := SplitSign(s);
    var n := ParseNat(t);
    if n.None? then None
    else Some((if neg then -(n.value.0 as int) else n.value.0, n.value.1))
  }

  /** Reads "." and exactly four digits. */
  function ParseFraction(s: string): Option<(nat, string)> {
    if |s| < 5 || s[0] != '.' || DigitRun(s[1..5]) != 4 then None
    else Some((DigitsValue(s[1..5]), s[5..]))
  }

  /** Reads text in the shape `toFixed(4)` writes: an optional "-", a
      non-empty run of digits, ".", exactly four digits. */
  function ParseFixed(s: string): Option<(Fixed, string)> {
    var (neg, t) := SplitSign(s);
    var whole := ParseNat(t);
    if whole.None? then None
    else
      var fraction := ParseFraction(whole.value.1);
      if fraction.None? then None
      else Some((Fixed(neg, whole.value.0 * 10000 + fraction.value.0), fraction.value.1))
  }

  lemma {:induction false} DigitsValueOfDigits(n: nat)
    ensures DigitsValue(Digits(n)) == n
    decreases n
  {
    if n >= 10 {
      DigitsValueOfDigits(n / 10);
      var s := Digits(n);
      assert s[..|s| - 1] == Digits(n / 10);
    }
  }

  /** A run of digits followed by a non-digit is read up to that
      non-digit and no further. */
  lemma DigitRunStops(s: string, rest: string)
    requires forall i :: 0 <= i < |s| ==> IsDigit(s[i])
    requires rest == [] || !IsDigit(rest[0])
    ensures DigitRun(s + rest) == |s|
    ensures (s + rest)[..|s|] == s && (s + rest)[|s|..] == rest
  {
    var t := s + rest;
    assert forall i :: 0 <= i < |s| ==> IsDigit(t[i]);
    assert |s| < |t| ==> t[|s|] == rest[0];
  }

  lemma Pad4Value(n: nat)
    requires n < 10000
    ensures DigitsValue(Pad4(n)) == n
  {
    var s := Pad4(n);
    assert s[..1][..0] == [];
    assert DigitsValue(s[..1]) == n / 1000;
    assert s[..2][..1] == s[..1];
    assert DigitsValue(s[..2]) == n / 1000 * 10 + n / 100 % 10 == n / 100;
    assert s[..3][..2] == s[..2];
    assert DigitsValue(s[..3]) == n / 100 * 10 + n / 10 % 10 == n / 10;
    assert s[..4][..3] == s[..3];
    assert s[..4] == s;
    assert DigitsValue(s) == n / 10 * 10 + n % 10 == n;
  }

  lemma SplitSignOf(negative: bool, t: string)
    requires t == [] || t[0] != '-'
    ensures SplitSign((if negative then "-" else "") + t) == (negative, t)
  {
    if negative {
      assert ("-" + t)[1..] == t;
    } else {
      assert "" + t == t;
    }
  }

  /** The shortest decimal text of n reads back as n, whatever non-digit
      text follows it. */
  lemma NatTextRoundTrip(n: nat, rest: string)
    requires rest == [] || !IsDigit(rest[0])
    ensures ParseNat(Digits(n) + rest) == Some((n, rest))
  {
    DigitRunStops(Digits(n), rest);
    DigitsValueOfDigits(n);
  }

  lemma FractionRoundTrip(n: nat, rest: string)
    requires n < 10000
    ensures ParseFraction("." + (Pad4(n) + rest)) == Some((n, rest))
  {
    var s := "." + (Pad4(n) + rest);
    assert s[1..5] == Pad4(n) && s[5..] == rest;
    DigitRunStops(Pad4(n), []);
    assert Pad4(n) + [] == Pad4(n);
    Pad4Value(n);
  }

  /** The integer text of a template literal reads back as the same
      integer, whatever non-digit text follows it. */
  lemma IntTextRoundTrip(i: int, rest: string)
    requires rest == [] || !IsDigit(rest[0])
    ensures ParseInt(IntText(i) + rest) == Some((i, rest))
  {
    var d := if i < 0 then -i else i;
    var t := Digits(d) + rest;
    assert IntText(i) + rest == (if i < 0 then "-" else "") + t;
    assert t[0] == Digits(d)[0];
    SplitSignOf(i < 0, t);
    NatTextRoundTrip(d, rest);
  }

  lemma FixedTextSplits(f: Fixed, rest: string)
    ensures FixedText(f) + rest == (if f.negative then "-" else "")
              + (Digits(f.units / 10000) + ("." + (Pad4(f.units % 10000) + rest)))
  {
  }

  /** A sign, a whole part, "." and four fraction digits read back as the
      amount they write. */
  lemma FixedPartsRoundTrip(negative: bool, whole: nat, fraction: nat, rest: string)
    requires fraction < 10000
    ensures ParseFixed((if negative then "-" else "") + (Digits(whole) + ("." + (Pad4(fraction) + rest))))
            == Some((Fixed(negative, whole * 10000 + fraction), rest))
  {
    var after := "." + (Pad4(fraction) + rest);
    var t := Digits(whole) + after;
    assert t[0] == Digits(whole)[0];
    SplitSignOf(negative, t);
    NatTextRoundTrip(whole, after);
    FractionRoundTrip(fraction, rest);
  }

  /** The text of `toFixed(4)` reads back as the same sign and magnitude,
      whatever text follows it. */
  lemma FixedTextRoundTrip(f: Fixed, rest: string)
    ensures ParseFixed(FixedText(f) + rest) == Some((f, rest))
  {
    FixedTextSplits(f, rest);
    FixedPartsRoundTrip(f.negative, f.units / 10000, f.units % 10000, rest);
  }
}
