/**
 * Integer conversions of the tool table: Python's `int(text)` on a string
 * and its inverse, `"%d" % n`.
 */
module Ints {
  import opened Wrappers
  import opened Text

  function DigitValue(c: char): nat
    requires IsDigit(c)
  {
    (c as int) - ('0' as int)
  }

  function DigitChar(d: nat): (c: char)
    requires d < 10
    ensures IsDigit(c) && DigitValue(c) == d
  {
    (('0' as int) + d) as char
  }

  /** The value of a string of decimal digits, most significant first. */
  function DigitsValue(s: string): nat
    requires AllDigits(s)
  {
    if s == [] then 0 else 10 * DigitsValue(s[..|s| - 1]) + DigitValue(s[|s| - 1])
  }

  /** The decimal digits of `n`, without leading zeros. */
  function NatToString(n: nat): (s: string)
    ensures s != [] && AllDigits(s)
    ensures s[0] == '0' ==> n == 0
  {
    if n < 10 then [DigitChar(n)] else NatToString(n / 10) + [DigitChar(n % 10)]
  }

  /** `"%d" % n` and `str(n)`: a minus sign for negative numbers, then the digits. */
  function IntToString(n: int): (s: string)
    ensures s != [] && (s[0] == '-' <==> n < 0)
    ensures forall k :: 0 <= k < |s| ==> IsDigit(s[k]) || (k == 0 && s[k] == '-')
  {
    if n < 0 then "-" + NatToString(-n) else NatToString(n)
  }

  /**
   * An optional sign followed by at least one ASCII digit. As in Python 2's
   * `int()`, whitespace may come between the sign and the digits.
   */
  function ParseInt(s: string): Option<int> {
    if |s| > 0 && (s[0] == '+' || s[0] == '-') then
      var body := LStrip(s[1..]);
      if body != [] && AllDigits(body) then
        Some(if s[0] == '-' then -(DigitsValue(body) as int) else DigitsValue(body))
      else None
    else if s != [] && AllDigits(s) then Some(DigitsValue(s))
    else None
  }

  /**
   * `int(text)`: surrounding whitespace is ignored; text that is not a sign,
   * optional whitespace and digits raises ValueError (None).
   */
  function PyInt(text: string): Option<int> {
    ParseInt(Strip(text))
  }

  lemma {:induction false} DigitsRoundTrip(n: nat)
    ensures DigitsValue(NatToString(n)) == n
  {
    if n >= 10 {
      var s := NatToString(n);
      assert s[..|s| - 1] == NatToString(n / 10);
      DigitsRoundTrip(n / 10);
    }
  }

  /** Reading back what `"%d"` wrote gives the number that was written. */
  lemma IntRoundTrip(n: int)
    ensures PyInt(IntToString(n)) == Some(n)
  {
    var s := IntToString(n);
    assert NoSpace(s);
    StripNoSpace(s);
    if n < 0 {
      var body := NatToString(-n);
      assert s == "-" + body && s[1..] == body;
      StripNoSpace(body);
      DigitsRoundTrip(-n);
      assert ParseInt(s) == Some(-(DigitsValue(body) as int));
    } else {
      DigitsRoundTrip(n);
      assert s[0] != '+' && s[0] != '-';
    }
  }

  /**
   * Python 2 reads `"- 5"` as -5: any whitespace between the sign and the
   * digits is skipped.
   */
  lemma SpaceAfterSign(sign: char, gap: string, n: nat)
    requires sign == '-' || sign == '+'
    requires AllSpace(gap)
    ensures PyInt([sign] + gap + NatToString(n)) == Some(if sign == '-' then -(n as int) else n)
  {
    var digits := NatToString(n);
    var s := [sign] + gap + digits;
    assert s[0] == sign && s[|s| - 1] == digits[|digits| - 1];
    EndsUnstripped(s);
    assert s[1..] == gap + digits;
    LStripGap(gap, digits);
    DigitsRoundTrip(n);
  }

  lemma EndsUnstripped(s: string)
    requires s != [] && !IsSpace(s[0]) && !IsSpace(s[|s| - 1])
    ensures Strip(s) == s
  {
    assert RStrip(s) == s;
  }

  lemma {:induction false} LStripGap(gap: string, w: string)
    requires AllSpace(gap) && w != [] && !IsSpace(w[0])
    ensures LStrip(gap + w) == w
    decreases |gap|
  {
    if gap == [] {
      assert gap + w == w;
    } else {
      assert (gap + w)[1..] == gap[1..] + w;
      LStripGap(gap[1..], w);
    }
  }
}
