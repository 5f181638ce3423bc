/**
 * Decimal literals as JavaScript reads them: `Number.parseFloat`, which reads
 * the longest decimal prefix of a string, and `Number` applied to a run of
 * digits and dots, which must be one literal as a whole. Values are exact
 * reals; IEEE rounding is not modelled.
 */
module Decimal {
  import opened Wrappers
  import Text
  import Seqs

  predicate IsDigit(c: char) {
    '0' <= c <= '9'
  }

  predicate AllDigits(s: string) {
    forall i :: 0 <= i < |s| ==> IsDigit(s[i])
  }

  function DigitValue(c: char): (n: nat)
    requires IsDigit(c)
    ensures n < 10
  {
    (c as int - '0' as int) as nat
  }

  function Pow10(n: nat): (p: nat)
    ensures p > 0
  {
    if n == 0 then 1 else 10 * Pow10(n - 1)
  }

  /** The number a run of decimal digits denotes, read from the most significant digit. */
  function Value(d: string): (v: nat)
    requires AllDigits(d)
    ensures v < Pow10(|d|)
  {
    if d == [] then 0 else 10 * Value(d[..|d| - 1]) + DigitValue(d[|d| - 1])
  }

  /** The value of the digits after a decimal point. */
  function Fraction(f: string): (v: real)
    requires AllDigits(f)
    ensures 0.0 <= v < 1.0
  {
    if f == [] then 0.0 else (DigitValue(f[0]) as real + Fraction(f[1..])) / 10.0
  }

  /** The number written as the digits `d`, a decimal point and the digits `f`. */
  function DecimalValue(d: string, f: string): (v: real)
    requires AllDigits(d) && AllDigits(f)
    ensures Value(d) as real <= v < Value(d) as real + 1.0
  {
    Value(d) as real + Fraction(f)
  }

  /** The length of the run of digits at the head of `s`. */
  function LeadingDigits(s: string): (n: nat)
    ensures n <= |s| && AllDigits(s[..n])
    ensures n < |s| ==> !IsDigit(s[n])
  {
    if s == [] || !IsDigit(s[0]) then 0
    else
      var n := 1 + LeadingDigits(s[1..]);
      assert s[..n] == [s[0]] + s[1..][..n - 1];
      n
  }

  /** A literal read from the head of a string: its value and how many characters it spans. */
  datatype Literal = Literal(value: real, length: nat)

  /**
   * The longest unsigned decimal literal at the head of `s`: digits, optionally
   * followed by a point and more digits, or a point followed by at least one digit.
   */
  function ScanUnsigned(s: string): (r: Option<Literal>)
    ensures r.Some? ==> 0 < r.value.length <= |s|
  {
    var n := LeadingDigits(s);
    if n < |s| && s[n] == '.' then
      var m := LeadingDigits(s[n + 1..]);
      if n == 0 && m == 0 then None
      else Some(Literal(DecimalValue(s[..n], s[n + 1..][..m]), n + 1 + m))
    else if n == 0 then None
    else Some(Literal(DecimalValue(s[..n], []), n))
  }

  /** `s` begins with a literal of value `v` spanning `len` characters. */
  predicate Reads(s: string, v: real, len: nat) {
    ScanUnsigned(s).Some? && ScanUnsigned(s).value.value == v && ScanUnsigned(s).value.length == len
  }

  /** The value of the unsigned literal at the head of `t`, if there is one. */
  function UnsignedValue(t: string): (r: Option<real>)
    ensures r.Some? <==> ScanUnsigned(t).Some?
  {
    match ScanUnsigned(t)
    case Some(lit) => Some(lit.value)
    case None => None
  }

  function Negate(r: Option<real>): Option<real> {
    match r
    case Some(v) => Some(-v)
    case None => None
  }

  /** `Number.parseFloat` on strings without an exponent or `Infinity`: leading whitespace, a sign, a literal. */
  function ParseFloat(s: string): (r: Option<real>)
  {
    var t := Text.TrimStart(s);
    if t != [] && t[0] == '-' then Negate(UnsignedValue(t[1..]))
    else if t != [] && t[0] == '+' then UnsignedValue(t[1..])
    else UnsignedValue(t)
  }

  /** `Number` on a run of digits and dots: the run must be one literal, with nothing left over. */
  function NumberOf(s: string): (r: Option<real>)
  {
    match ScanUnsigned(s)
    case Some(lit) => if lit.length == |s| then Some(lit.value) else None
    case None => None
  }

  // ---------------------------------------------------------------------------
  // The literal reader against the literal it reads.

  /** The digit run at the head of `s` is exactly `n` long when `n` digits are followed by a non-digit. */
  lemma {:induction false} LeadingDigitsAt(s: string, n: nat)
    requires n <= |s| && AllDigits(s[..n])
    requires n == |s| || !IsDigit(s[n])
    ensures LeadingDigits(s) == n
  {
    if n > 0 {
      assert s[..n][0] == s[0];
      assert s[1..][..n - 1] == s[1..n];
      assert forall i :: 0 <= i < n - 1 ==> s[1..n][i] == s[..n][i + 1];
      if n < |s| { assert s[1..][n - 1] == s[n]; }
      LeadingDigitsAt(s[1..], n - 1);
    }
  }

  /** A literal with a point: `n` digits, the point, then `m` digits and a non-digit. */
  lemma ScanPointAt(s: string, n: nat, m: nat)
    requires n < |s| && s[n] == '.' && n + m > 0 && n + 1 + m <= |s|
    requires AllDigits(s[..n]) && AllDigits(s[n + 1..n + 1 + m])
    requires n + 1 + m == |s| || !IsDigit(s[n + 1 + m])
    ensures Reads(s, DecimalValue(s[..n], s[n + 1..n + 1 + m]), n + 1 + m)
  {
    LeadingDigitsAt(s, n);
    var t := s[n + 1..];
    assert t[..m] == s[n + 1..n + 1 + m];
    if n + 1 + m < |s| { assert t[m] == s[n + 1 + m]; }
    LeadingDigitsAt(t, m);
  }

  /** A literal without a point: `n` digits followed by neither a digit nor a point. */
  lemma ScanIntegerAt(s: string, n: nat)
    requires 0 < n <= |s| && AllDigits(s[..n])
    requires n == |s| || (!IsDigit(s[n]) && s[n] != '.')
    ensures Reads(s, DecimalValue(s[..n], []), n)
  {
    LeadingDigitsAt(s, n);
  }

  /** Digits, a point and digits, followed by anything that is not a digit, are read as one literal. */
  lemma ScanDecimal(d: string, f: string, rest: string)
    requires AllDigits(d) && AllDigits(f) && |d| + |f| > 0
    requires rest == [] || !IsDigit(rest[0])
    ensures Reads(d + "." + f + rest, DecimalValue(d, f), |d| + 1 + |f|)
  {
    var s := d + "." + f + rest;
    var n := |d|;
    assert s[..n] == d;
    assert s[n] == '.';
    assert s[n + 1..n + 1 + |f|] == f;
    if rest != [] { assert s[n + 1 + |f|] == rest[0]; }
    ScanPointAt(s, n, |f|);
  }

  /** Digits followed by neither a digit nor a point are read as an integer literal. */
  lemma ScanInteger(d: string, rest: string)
    requires AllDigits(d) && |d| > 0
    requires rest == [] || (!IsDigit(rest[0]) && rest[0] != '.')
    ensures Reads(d + rest, DecimalValue(d, []), |d|)
  {
    var s := d + rest;
    assert s[..|d|] == d;
    if rest != [] { assert s[|d|] == rest[0]; }
    ScanIntegerAt(s, |d|);
  }

  /** Nothing is read when the head is neither a digit nor a point followed by a digit. */
  lemma ScanNothing(s: string)
    requires s == [] || (!IsDigit(s[0]) && (s[0] != '.' || |s| == 1 || !IsDigit(s[1])))
    ensures ScanUnsigned(s) == None
  {
    if s != [] && s[0] == '.' && |s| > 1 {
      assert s[1..][0] == s[1];
    }
  }

  /** `Number` accepts a run of digits and dots exactly when it holds at most one point and some digit. */
  lemma NumberOfDecimal(d: string, f: string)
    requires AllDigits(d) && AllDigits(f) && |d| + |f| > 0
    ensures NumberOf(d + "." + f) == Some(DecimalValue(d, f))
    ensures |d| > 0 ==> NumberOf(d) == Some(DecimalValue(d, []))
  {
    var s := d + "." + f;
    ScanDecimal(d, f, []);
    assert s + [] == s;
    if |d| > 0 {
      ScanInteger(d, []);
      assert d + [] == d;
    }
  }

  /** A second point makes the whole run unreadable for `Number`, so "1.2.3" is not a number. */
  lemma NumberOfTwoPoints(d: string, f: string, rest: string)
    requires AllDigits(d) && AllDigits(f) && |d| + |f| > 0
    ensures NumberOf(d + "." + f + "." + rest) == None
  {
    ScanDecimal(d, f, "." + rest);
    assert d + "." + f + ("." + rest) == d + "." + f + "." + rest;
  }

  /** A run made only of points is not a number. */
  lemma NumberOfPoint()
    ensures NumberOf(".") == None
  {
    ScanNothing(".");
  }

  /** `parseFloat` of a string that begins with an unsigned literal. */
  lemma ParseFloatReads(s: string, v: real, len: nat)
    requires s != [] && (IsDigit(s[0]) || s[0] == '.') && Reads(s, v, len)
    ensures ParseFloat(s) == Some(v)
    ensures ParseFloat("-" + s).Some? && ParseFloat("-" + s).value == -v
  {
    assert UnsignedValue(s) == Some(v);
    ParseFloatUnsigned(s);
    ParseFloatMinus(s);
  }

  lemma ParseFloatUnsigned(s: string)
    requires s != [] && (IsDigit(s[0]) || s[0] == '.')
    ensures ParseFloat(s) == UnsignedValue(s)
  {
    assert !Text.IsSpace(s[0]);
    Text.TrimStartNoop(s);
  }

  lemma ParseFloatMinus(s: string)
    requires s != [] && (IsDigit(s[0]) || s[0] == '.')
    ensures ParseFloat("-" + s) == Negate(UnsignedValue(s))
  {
    var n := "-" + s;
    assert n[0] == '-' && n[1..] == s;
    assert !Text.IsSpace(n[0]);
    Text.TrimStartNoop(n);
  }

  /** `parseFloat` reads a signed literal and ignores what follows it. */
  lemma ParseFloatDecimal(d: string, f: string, rest: string)
    requires AllDigits(d) && AllDigits(f) && |d| + |f| > 0
    requires rest == [] || !IsDigit(rest[0])
    ensures ParseFloat(d + "." + f + rest) == Some(DecimalValue(d, f))
    ensures ParseFloat("-" + d + "." + f + rest).Some? && ParseFloat("-" + d + "." + f + rest).value == -DecimalValue(d, f)
  {
    ScanDecimal(d, f, rest);
    var s := d + "." + f + rest;
    if d != [] {
      assert s[0] == d[0];
    } else {
      assert s[0] == '.';
    }
    ParseFloatReads(s, DecimalValue(d, f), |d| + 1 + |f|);
    var n := "-" + d + "." + f + rest;
    Seqs.Assoc5("-", d, ".", f, rest);
    assert ParseFloat(n).Some? && ParseFloat(n).value == -DecimalValue(d, f);
  }

  lemma ParseFloatInteger(d: string, rest: string)
    requires AllDigits(d) && |d| > 0
    requires rest == [] || (!IsDigit(rest[0]) && rest[0] != '.')
    ensures ParseFloat(d + rest) == Some(DecimalValue(d, []))
    ensures ParseFloat("-" + d + rest).Some? && ParseFloat("-" + d + rest).value == -DecimalValue(d, [])
  {
    ScanInteger(d, rest);
    var s := d + rest;
    assert s[0] == d[0];
    ParseFloatReads(s, DecimalValue(d, []), |d|);
    var n := "-" + d + rest;
    assert "-" + s == n;
    assert ParseFloat(n).Some? && ParseFloat(n).value == -DecimalValue(d, []);
  }
}
