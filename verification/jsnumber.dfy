/**
  * The parts of JavaScript's number handling that the extension relies on:
  * `parseFloat` of the numeric fields the regular expressions capture, and
  * `toFixed(3)`, which writes every rewritten coordinate.
  */
module JsNumber {

  predicate IsDigit(c: char) {
    '0' <= c <= '9'
  }

  predicate AllDigits(s: string) {
    forall i :: 0 <= i < |s| ==> IsDigit(s[i])
  }

  function DigitValue(c: char): nat
    requires IsDigit(c)
  {
    c as int - '0' as int
  }

  function DigitChar(d: nat): (c: char)
    requires d < 10
    ensures IsDigit(c) && DigitValue(c) == d
  {
    ('0' as int + d) as char
  }

  /** The longest prefix of `s` made of decimal digits. */
  function DigitRun(s: string): (r: string)
    ensures r <= s && AllDigits(r)
    ensures |r| < |s| ==> !IsDigit(s[|r|])
  {
    if |s| > 0 && IsDigit(s[0]) then [s[0]] + DigitRun(s[1..]) else []
  }

  /** The value of a digit string read as a whole number. */
  function DigitsValue(ds: string): nat
    requires AllDigits(ds)
  {
    if ds == [] then 0 else DigitsValue(ds[..|ds| - 1]) * 10 + DigitValue(ds[|ds| - 1])
  }

  /** The value of a digit string read as the digits after a decimal point. */
  function FractionValue(ds: string): real
    requires AllDigits(ds)
  {
    if ds == [] then 0.0 else (DigitValue(ds[0]) as real + FractionValue(ds[1..])) / 10.0
  }

  /**
    * `parseFloat` without a sign: the longest prefix of the form `digits [. digits]`
    * or `. digits`. A string with no digit there is `NaN` in JavaScript; the model
    * reads it as 0, which agrees with JavaScript wherever the value is only checked
    * for truthiness (both are falsy).
    */
  function ParseUnsigned(s: string): real {
    var ip := DigitRun(s);
    var rest := s[|ip|..];
    var fp := if |rest| > 0 && rest[0] == '.' then DigitRun(rest[1..]) else [];
    if |ip| == 0 && |fp| == 0 then 0.0
    else DigitsValue(ip) as real + FractionValue(fp)
  }

  /** `parseFloat` of a field made of the characters `[.+\-0-9]`. */
  function ParseFloat(s: string): real {
    if |s| > 0 && s[0] == '-' then -ParseUnsigned(s[1..])
    else if |s| > 0 && s[0] == '+' then ParseUnsigned(s[1..])
    else ParseUnsigned(s)
  }

  /** The decimal digits of `n`, most significant first, without leading zeros. */
  function NatToString(n: nat): (s: string)
    ensures |s| > 0 && AllDigits(s)
    ensures DigitsValue(s) == n
  {
    if n < 10 then [DigitChar(n)]
    else
      var s := NatToString(n / 10) + [DigitChar(n % 10)];
      assert s[..|s| - 1] == NatToString(n / 10);
      s
  }

  /** Three digits for a fraction `k / 1000`. */
  function Pad3(k: nat): (s: string)
    requires k < 1000
    ensures |s| == 3 && AllDigits(s)
    ensures FractionValue(s) == k as real / 1000.0
  {
    var d0, d1, d2 := k / 100, k / 10 % 10, k % 10;
    var s := [DigitChar(d0), DigitChar(d1), DigitChar(d2)];
    assert s[2..][1..] == [];
    assert FractionValue(s[2..]) == d2 as real / 10.0;
    assert s[1..][1..] == s[2..];
    assert FractionValue(s[1..]) == (d1 as real + d2 as real / 10.0) / 10.0;
    assert s[1..] == s[1..];
    assert k == d0 * 100 + d1 * 10 + d2;
    assert k as real == d0 as real * 100.0 + d1 as real * 10.0 + d2 as real;
    s
  }

  /** The number of thousandths `toFixed(3)` writes for `|v|` (ties round up). */
  function Thousandths(v: real): nat {
    var a := if v < 0.0 then -v else v;
    (a * 1000.0 + 0.5).Floor
  }

  /** `v` rounded the way `toFixed(3)` rounds it. */
  function Round3(v: real): real {
    var m := Thousandths(v) as real / 1000.0;
    if v < 0.0 then -m else m
  }

  /** `v.toFixed(3)`: optional `-`, integer digits, `.`, three digits. */
  function Fixed3(v: real): string {
    var n := Thousandths(v);
    (if v < 0.0 then "-" else "") + NatToString(n / 1000) + "." + Pad3(n % 1000)
  }

  /** Rounding to thousandths moves a value by at most half a thousandth. */
  lemma Round3Error(v: real)
    ensures -0.0005 <= Round3(v) - v <= 0.0005
  {
    var a := if v < 0.0 then -v else v;
    var n := Thousandths(v);
    assert n as real <= a * 1000.0 + 0.5 < n as real + 1.0;
  }

  lemma DigitRunOfDigits(ds: string, rest: string)
    requires AllDigits(ds)
    requires rest == [] || !IsDigit(rest[0])
    ensures DigitRun(ds + rest) == ds
  {
    if ds != [] {
      assert (ds + rest)[1..] == ds[1..] + rest;
      DigitRunOfDigits(ds[1..], rest);
    }
  }

  /** An unsigned `digits.digits` string reads back as its integer part plus its fraction. */
  lemma ParseUnsignedDecimal(ip: string, fp: string)
    requires |ip| > 0 && AllDigits(ip) && AllDigits(fp)
    ensures ParseUnsigned(ip + "." + fp) == DigitsValue(ip) as real + FractionValue(fp)
  {
    var rest := "." + fp;
    var body := ip + rest;
    assert ip + "." + fp == body;
    DigitRunOfDigits(ip, rest);
    assert body[|ip|..] == rest;
    assert rest[1..] == fp + [];
    DigitRunOfDigits(fp, []);
    assert DigitRun(rest[1..]) == fp;
  }

  lemma SplitThousandths(n: nat)
    ensures (n / 1000) as real + (n % 1000) as real / 1000.0 == n as real / 1000.0
  {
    assert n == (n / 1000) * 1000 + n % 1000;
  }

  /** A leading `-` negates, and an unsigned string starting with a digit reads unchanged. */
  lemma ParseSigned(body: string, negative: bool)
    requires |body| > 0 && IsDigit(body[0])
    ensures ParseFloat((if negative then "-" else "") + body) ==
            (if negative then -ParseUnsigned(body) else ParseUnsigned(body))
  {
    if negative {
      assert ("-" + body)[1..] == body;
    } else {
      assert "" + body == body;
    }
  }

  /** Reading back what `toFixed(3)` wrote gives the rounded value. */
  lemma ParseFixed3(v: real)
    ensures ParseFloat(Fixed3(v)) == Round3(v)
  {
    var n := Thousandths(v);
    var ip, fp := NatToString(n / 1000), Pad3(n % 1000);
    var sign := if v < 0.0 then "-" else "";
    assert Fixed3(v) == sign + (ip + "." + fp);
    ParseUnsignedDecimal(ip, fp);
    SplitThousandths(n);
    ParseSigned(ip + "." + fp, v < 0.0);
  }

  /** What is written as a coordinate reads back within half a thousandth of the value. */
  lemma Fixed3Precision(v: real)
    ensures -0.0005 <= ParseFloat(Fixed3(v)) - v <= 0.0005
  {
    ParseFixed3(v);
    Round3Error(v);
  }
}
