/**
 * JVM integer arithmetic and decimal text: `/` and `%` on `Int` and `Long`
 * (truncating toward zero), `%d` and `%0Nd` of `String.format`,
 * `Long.toString` (string templates), and `String.toInt` /
 * `String.toLong`. Only ASCII digits are modelled.
 */
module Decimal {
  import opened Util

  const IntMin: int := -0x8000_0000
  const IntMax: int := 0x7FFF_FFFF
  const LongMin: int := -0x8000_0000_0000_0000
  const LongMax: int := 0x7FFF_FFFF_FFFF_FFFF

  /** JVM `a / b` for `b > 0`: the quotient rounded toward zero. */
  function TDiv(a: int, b: int): (q: int)
    requires b > 0
    ensures Abs(q) == Abs(a) / b
    ensures a >= 0 ==> q >= 0
    ensures a < 0 ==> q <= 0
  {
    if a >= 0 then a / b else -((-a) / b)
  }

  /** JVM `a % b` for `b > 0`: takes the sign of `a`. */
  function TMod(a: int, b: int): (r: int)
    requires b > 0
    ensures Abs(r) == Abs(a) % b
    ensures a >= 0 ==> 0 <= r < b
    ensures a < 0 ==> -b < r <= 0
  {
    if a >= 0 then a % b else -((-a) % b)
  }

  /** Quotient and remainder recompose the dividend, as on the JVM. */
  lemma TDivModIdentity(a: int, b: int)
    requires b > 0
    ensures TDiv(a, b) * b + TMod(a, b) == a
  {
    var n := Abs(a);
    assert (n / b) * b + n % b == n;
    if a < 0 {
      assert TDiv(a, b) * b == -((n / b) * b);
    }
  }

  predicate IsDigit(c: char) {
    '0' <= c <= '9'
  }

  predicate AllDigits(s: string) {
    forall i :: 0 <= i < |s| ==> IsDigit(s[i])
  }

  function DigitChar(d: nat): (c: char)
    requires d < 10
    ensures IsDigit(c)
  {
    (('0' as int) + d) as char
  }

  function DigitValue(c: char): (d: nat)
    requires IsDigit(c)
    ensures d < 10
  {
    (c as int) - ('0' as int)
  }

  function Abs(n: int): nat {
    if n < 0 then -n else n
  }

  /** The digits of `n`, most significant first, without leading zeros. */
  function NatDigits(n: nat): (s: string)
    ensures |s| >= 1 && AllDigits(s)
    ensures |s| > 1 ==> s[0] != '0'
    ensures n < 10 <==> |s| == 1
    decreases n
  {
    if n < 10 then [DigitChar(n)] else NatDigits(n / 10) + [DigitChar(n % 10)]
  }

  /** The number a run of ASCII digits denotes (leading zeros allowed). */
  function DigitsValue(s: string): nat
    requires AllDigits(s)
  {
    if s == [] then 0 else DigitsValue(s[..|s| - 1]) * 10 + DigitValue(s[|s| - 1])
  }

  function Zeros(k: int): (s: string)
    ensures |s| == if k < 0 then 0 else k
    ensures forall i :: 0 <= i < |s| ==> s[i] == '0'
    decreases k
  {
    if k <= 0 then "" else "0" + Zeros(k - 1)
  }

  /**
   * `String.format("%0<width>d", n)`; width 0 is plain `%d` and `toString`.
   * Zero padding goes between the sign and the digits.
   */
  function FormatInt(n: int, width: nat): (s: string)
    ensures |s| >= width
    ensures |s| >= 1
  {
    var sign := if n < 0 then "-" else "";
    var digits := NatDigits(Abs(n));
    sign + Zeros(width - |sign| - |digits|) + digits
  }

  /**
   * `String.toInt` / `String.toLong` with the bounds of the target type: an
   * optional `+` or `-`, then at least one digit, and the value in range;
   * anything else is the `NumberFormatException` (here `None`).
   */
  function ParseInteger(s: string, lo: int, hi: int): (r: Option<int>)
    ensures r.Some? ==> lo <= r.value <= hi
    ensures r.Some? ==> |s| >= 1
  {
    if |s| == 0 then None
    else if s[0] == '-' || s[0] == '+' then
      if |s| == 1 || !AllDigits(s[1..]) then None
      else
        var v: int := if s[0] == '-' then 0 - (DigitsValue(s[1..]) as int) else DigitsValue(s[1..]);
        if lo <= v <= hi then Some(v) else None
    else if AllDigits(s) then
      var v := DigitsValue(s);
      if lo <= v <= hi then Some(v) else None
    else None
  }

  function ToInt(s: string): (r: Option<int>)
    ensures r.Some? ==> IntMin <= r.value <= IntMax
  {
    ParseInteger(s, IntMin, IntMax)
  }

  function ToLong(s: string): (r: Option<int>)
    ensures r.Some? ==> LongMin <= r.value <= LongMax
  {
    ParseInteger(s, LongMin, LongMax)
  }

  lemma {:induction false} DigitsValueAppend(s: string, c: char)
    requires AllDigits(s) && IsDigit(c)
    ensures AllDigits(s + [c]) && DigitsValue(s + [c]) == DigitsValue(s) * 10 + DigitValue(c)
  {
    assert (s + [c])[..|s + [c]| - 1] == s;
  }

  /** Reading back the digits written for `n` gives `n`. */
  lemma {:induction false} NatDigitsRoundTrip(n: nat)
    ensures DigitsValue(NatDigits(n)) == n
  {
    if n < 10 {
      assert DigitValue(DigitChar(n)) == n;
    } else {
      NatDigitsRoundTrip(n / 10);
      DigitsValueAppend(NatDigits(n / 10), DigitChar(n % 10));
    }
  }

  lemma {:induction false} LeadingZerosIgnored(z: string, s: string)
    requires forall i :: 0 <= i < |z| ==> z[i] == '0'
    requires AllDigits(s)
    ensures AllDigits(z + s) && DigitsValue(z + s) == DigitsValue(s)
    decreases |s|
  {
    if s == [] {
      assert z + s == z;
      ZerosValue(z);
    } else {
      var init := s[..|s| - 1];
      LeadingZerosIgnored(z, init);
      assert z + s == (z + init) + [s[|s| - 1]];
      DigitsValueAppend(z + init, s[|s| - 1]);
      DigitsValueAppend(init, s[|s| - 1]);
      assert init + [s[|s| - 1]] == s;
    }
  }

  lemma {:induction false} ZerosValue(z: string)
    requires forall i :: 0 <= i < |z| ==> z[i] == '0'
    ensures AllDigits(z) && DigitsValue(z) == 0
  {
    if z != [] {
      ZerosValue(z[..|z| - 1]);
    }
  }

  /** Zero padding in front of the digits of `n` still denotes `n`. */
  lemma PaddedDigitsValue(k: int, n: nat)
    ensures AllDigits(Zeros(k) + NatDigits(n)) && DigitsValue(Zeros(k) + NatDigits(n)) == n
  {
    LeadingZerosIgnored(Zeros(k), NatDigits(n));
    NatDigitsRoundTrip(n);
  }

  /** `FormatInt` is the sign followed by the padded digits. */
  lemma FormatIntShape(n: int, width: nat)
    ensures var sign := if n < 0 then "-" else "";
      var digits := NatDigits(Abs(n));
      FormatInt(n, width) == sign + (Zeros(width - |sign| - |digits|) + digits)
  {
  }

  /** The digits of `FormatInt(n, w)` after any sign denote `|n|`. */
  lemma FormatIntValue(n: int, width: nat)
    ensures var s := FormatInt(n, width);
      && (n < 0 <==> s[0] == '-')
      && (n < 0 ==> AllDigits(s[1..]) && DigitsValue(s[1..]) == -n)
      && (n >= 0 ==> AllDigits(s) && DigitsValue(s) == n)
  {
    var sign := if n < 0 then "-" else "";
    var digits := NatDigits(Abs(n));
    var k := width - |sign| - |digits|;
    var body := Zeros(k) + digits;
    PaddedDigitsValue(k, Abs(n));
    FormatIntShape(n, width);
    var s := FormatInt(n, width);
    if n < 0 {
      assert s[1..] == body;
    } else {
      assert s == body;
      assert IsDigit(s[0]);
    }
  }

  /**
   * `toInt`/`toLong` read back what `%d` (`toString`) writes, for every value
   * of the target type.
   */
  lemma ParseFormatRoundTrip(n: int, lo: int, hi: int)
    requires lo <= n <= hi
    ensures ParseInteger(FormatInt(n, 0), lo, hi) == Some(n)
  {
    FormatIntValue(n, 0);
    var s := FormatInt(n, 0);
    if n >= 0 {
      assert s[0] != '-' && s[0] != '+';
    }
  }

  /** Reading back a zero-padded `%0Nd` gives the value too. */
  lemma ParsePaddedRoundTrip(n: int, width: nat, lo: int, hi: int)
    requires lo <= n <= hi
    ensures ParseInteger(FormatInt(n, width), lo, hi) == Some(n)
  {
    FormatIntValue(n, width);
    var s := FormatInt(n, width);
    if n >= 0 {
      assert s[0] != '-' && s[0] != '+';
    } else {
      assert |s| != 1;
    }
  }

  /** A value below 100 has at most two digits, so `%02d` writes exactly two characters. */
  lemma TwoDigitWidth(n: nat)
    requires n < 100
    ensures |FormatInt(n, 2)| == 2
  {
    if n >= 10 {
      assert |NatDigits(n / 10)| == 1;
    }
  }

  /** Different values are written differently. */
  lemma FormatIntInjective(a: int, b: int, width: nat)
    requires FormatInt(a, width) == FormatInt(b, width)
    ensures a == b
  {
    var lo, hi := if a < b then a else b, if a < b then b else a;
    ParsePaddedRoundTrip(a, width, lo, hi);
    ParsePaddedRoundTrip(b, width, lo, hi);
  }
}
