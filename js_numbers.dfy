/** The numeric conversions of JavaScript that the core uses: `parseInt(s, 10)`,
    `parseFloat` on the digit-and-dot runs the score calculator extracts, and
    `Number.prototype.toString` on non-negative integers. Numbers are exact
    integers and reals here; IEEE double rounding is not modelled. */
module JsNumbers {
  import opened Wrappers
  import opened Text

  predicate AllDigits(s: string) {
    forall i :: 0 <= i < |s| ==> IsDigit(s[i])
  }

  function DigitValue(c: char): (d: nat)
    requires IsDigit(c)
    ensures d <= 9
  {
    c as int - '0' as int
  }

  function DigitChar(d: nat): (c: char)
    requires d <= 9
    ensures IsDigit(c) && DigitValue(c) == d
  {
    (d + '0' as int) as char
  }

  /** Value of a decimal numeral, most significant digit first. */
  function DigitsValue(ds: string): nat
    requires AllDigits(ds)
  {
    if ds == [] then 0 else 10 * DigitsValue(ds[..|ds| - 1]) + DigitValue(ds[|ds| - 1])
  }

  function Pow10(k: nat): (p: nat)
    ensures p >= 1
  {
    if k == 0 then 1 else 10 * Pow10(k - 1)
  }

  /** `n.toString()` for a non-negative integer: its decimal numeral. */
  function DecimalString(n: nat): (r: string)
    ensures |r| >= 1 && AllDigits(r)
    ensures DigitsValue(r) == n
    ensures n > 0 ==> r[0] != '0'
  {
    if n < 10 then [DigitChar(n)]
    else
      var p := DecimalString(n / 10);
      var r := p + [DigitChar(n % 10)];
      assert r[..|r| - 1] == p;
      r
  }

  /** A number with exactly `k` digits is written with `k` characters. */
  lemma {:induction false} DecimalStringLength(n: nat, k: nat)
    requires 1 <= k && n < Pow10(k) && (k == 1 || Pow10(k - 1) <= n)
    ensures |DecimalString(n)| == k
  {
    if k > 1 {
      PowAtLeastTen(k - 1);
      if k >= 3 {
        assert Pow10(k - 1) == 10 * Pow10(k - 2);
      }
      DecimalStringLength(n / 10, k - 1);
    }
  }

  lemma {:induction false} PowAtLeastTen(k: nat)
    requires k >= 1
    ensures Pow10(k) >= 10
  {
    if k > 1 {
      PowAtLeastTen(k - 1);
    }
  }

  /** `parseInt(s, 10)`: skip leading whitespace, read an optional sign, then
      the longest run of decimal digits; `None` (JavaScript's NaN) when no
      digit follows. */
  function ParseInt(s: string): (r: Option<int>)
    ensures r.None? <==> var b := UnsignedPart(TrimStart(s)); b == [] || !IsDigit(b[0])
    ensures r.Some? ==>
      var t := TrimStart(s);
      var v: int := DigitsValue(LeadingDigits(UnsignedPart(t)));
      && |t| > 0
      && r.value == if t[0] == '-' then -v else v
  {
    var t := TrimStart(s);
    var negative := |t| > 0 && t[0] == '-';
    var digits := LeadingDigits(UnsignedPart(t));
    if digits == [] then None
    else
      var v: int := DigitsValue(digits);
      Some(if negative then -v else v)
  }

  /** The longest prefix of `b` made of decimal digits. */
  function LeadingDigits(b: string): (d: string)
    ensures AllDigits(d)
    ensures d == b[..SpanEnd(b, 0, IsDigit)]
    ensures d == [] <==> b == [] || !IsDigit(b[0])
  {
    b[..SpanEnd(b, 0, IsDigit)]
  }

  /** What follows an optional leading sign. */
  function UnsignedPart(t: string): (b: string)
    ensures b == t || (|t| > 0 && (t[0] == '-' || t[0] == '+') && b == t[1..])
  {
    if |t| > 0 && (t[0] == '-' || t[0] == '+') then t[1..] else t
  }

  /** A numeral written by `toString` reads back as the same number. */
  lemma ParseIntDecimalString(n: nat)
    ensures ParseInt(DecimalString(n)) == Some(n)
  {
    var r := DecimalString(n);
    assert TrimStart(r) == r;
    assert UnsignedPart(r) == r;
    assert SpanEnd(r, 0, IsDigit) == |r|;
    assert r[..|r|] == r;
  }

  /** A non-empty all-digit string parses to its numeral value. */
  lemma ParseIntDigits(ds: string)
    requires ds != [] && AllDigits(ds)
    ensures ParseInt(ds) == Some(DigitsValue(ds))
  {
    assert TrimStart(ds) == ds;
    assert UnsignedPart(ds) == ds;
    assert SpanEnd(ds, 0, IsDigit) == |ds|;
    assert ds[..|ds|] == ds;
  }

  predicate IsDigitOrDot(c: char) {
    IsDigit(c) || c == '.'
  }

  /** Value of the digits after a decimal point. */
  function FracValue(ds: string): (r: real)
    requires AllDigits(ds)
    ensures 0.0 <= r < 1.0
  {
    if ds == [] then 0.0 else (DigitValue(ds[0]) as real + FracValue(ds[1..])) / 10.0
  }

  /** `parseFloat(t)` for a string of digits and dots: the longest prefix of the
      form `D`, `D.`, `D.F` or `.F` (with `D` and `F` digit runs and `F` non-empty
      in the last form). `None` is JavaScript's NaN. */
  function DecimalRunValue(t: string): (r: Option<real>)
    requires forall i :: 0 <= i < |t| ==> IsDigitOrDot(t[i])
    ensures r.None? <==> !(|t| > 0 && IsDigit(t[0])) && !(|t| > 1 && t[0] == '.' && IsDigit(t[1]))
    ensures r.Some? ==>
      var n := SpanEnd(t, 0, IsDigit);
      DigitsValue(t[..n]) as real <= r.value < DigitsValue(t[..n]) as real + 1.0
  {
    var n := SpanEnd(t, 0, IsDigit);
    var whole := DigitsValue(t[..n]) as real;
    if n < |t| && t[n] == '.' then
      var m := SpanEnd(t, n + 1, IsDigit);
      if n == 0 && m == n + 1 then None
      else Some(whole + FracValue(t[n + 1..m]))
    else if n == 0 then None
    else Some(whole)
  }
}
