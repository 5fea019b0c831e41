/**
 * The diameter and Z-offset conversion of the tool table, `"%.4f" % float(text)`,
 * on the decimal literals where a double holds the value exactly enough for
 * the four-decimal rendering to be exact: an optional sign, digits with an
 * optional decimal point, at most four digits after the point and at most
 * eleven significant digits before it (with at most fifteen significant
 * digits in all, decimal -> double -> decimal is the identity).
 */
module Decimals {
  import opened Wrappers
  import opened Text
  import opened Ints

  /** A decimal literal split into its sign, its digits before the point and its digits after it. */
  datatype Literal = Literal(negative: bool, whole: string, frac: string)

  const MaxWholeDigits: nat := 11
  const Places: nat := 4

  /** `[+|-](digits[.digits] | .digits)`, at least one digit in all. */
  function ParseLiteral(s: string): (r: Option<Literal>)
    ensures r.Some? ==> AllDigits(r.value.whole) && AllDigits(r.value.frac)
    ensures r.Some? ==> |r.value.whole| + |r.value.frac| > 0
  {
    var signed := |s| > 0 && (s[0] == '+' || s[0] == '-');
    var body := if signed then s[1..] else s;
    var (whole, frac) := SplitPoint(body);
    if AllDigits(whole) && AllDigits(frac) && |whole| + |frac| > 0 then
      Some(Literal(signed && s[0] == '-', whole, frac))
    else None
  }

  /** The text before the first `.` and the text after it (all of `body` and nothing when there is no `.`). */
  function SplitPoint(body: string): (parts: (string, string))
    ensures body == parts.0 + (if '.' in body then "." + parts.1 else "")
  {
    var dot := Find(body, '.');
    if dot < 0 then (body, "")
    else
      assert body == body[..dot] + [body[dot]] + body[dot + 1..];
      (body[..dot], body[dot + 1..])
  }

  function Zeros(n: nat): (z: string)
    ensures |z| == n && AllDigits(z)
    ensures forall k :: 0 <= k < n ==> z[k] == '0'
  {
    seq(n, _ => '0')
  }

  /** The fraction digits right-padded with zeros to four places. */
  function Pad(frac: string): (p: string)
    requires |frac| <= Places
    requires AllDigits(frac)
    ensures |p| == Places && p[..|frac|] == frac && AllDigits(p)
  {
    frac + Zeros(Places - |frac|)
  }

  /** The canonical four-place rendering: `-`?, whole digits without leading zeros (or `0`), `.`, four digits. */
  predicate IsFixed4(s: string) {
    var body := if |s| > 0 && s[0] == '-' then s[1..] else s;
    |body| >= Places + 2 && body[|body| - 5] == '.' && AllDigits(body[|body| - 4..])
    && IsWhole(body[..|body| - 5])
  }

  predicate IsWhole(w: string) {
    1 <= |w| <= MaxWholeDigits && AllDigits(w) && (w[0] == '0' ==> |w| == 1)
  }

  /** The value of a literal with at most four places, in ten-thousandths. */
  function Scaled(lit: Literal): int
    requires AllDigits(lit.whole) && AllDigits(lit.frac) && |lit.frac| <= Places
  {
    var magnitude := DigitsValue(lit.whole) * 10000 + DigitsValue(Pad(lit.frac));
    if lit.negative then -magnitude else magnitude
  }

  /** Lays out a sign, canonical whole digits and four places. */
  function Render(negative: bool, whole: string, places: string): string {
    (if negative then "-" else "") + whole + "." + places
  }

  /**
   * `"%.4f" % float(text)`; None where `float()` raises ValueError. Text outside
   * the covered literals (exponents, `inf`, `nan`, more than four places, more
   * than eleven whole digits) is None too.
   */
  function Fixed4(text: string): (r: Option<string>)
    ensures r.Some? ==> IsFixed4(r.value)
    ensures r.Some? ==> ParseLiteral(Strip(text)).Some?
  {
    match ParseLiteral(Strip(text))
    case None => None
    case Some(lit) => LiteralFixed4(lit)
  }

  /** The four-place rendering of a literal: leading zeros dropped, the fraction padded. */
  function LiteralFixed4(lit: Literal): (r: Option<string>)
    requires AllDigits(lit.whole) && AllDigits(lit.frac)
    ensures r.Some? ==> IsFixed4(r.value) && |lit.frac| <= Places
  {
    var w := LStripChar(lit.whole, '0');
    if |lit.frac| <= Places && |w| <= MaxWholeDigits then
      var whole := if w == [] then "0" else w;
      LStripCharSuffix(lit.whole, '0');
      SuffixDigits(lit.whole, |lit.whole| - |w|);
      RenderIsFixed4(lit.negative, whole, Pad(lit.frac));
      Some(Render(lit.negative, whole, Pad(lit.frac)))
    else None
  }

  lemma SuffixDigits(s: string, i: nat)
    requires AllDigits(s) && i <= |s|
    ensures AllDigits(s[i..])
  {
    forall k | 0 <= k < |s| - i ensures IsDigit(s[i..][k]) { assert s[i..][k] == s[i + k]; }
  }

  lemma RenderIsFixed4(negative: bool, whole: string, places: string)
    requires IsWhole(whole) && AllDigits(places) && |places| == Places
    ensures IsFixed4(Render(negative, whole, places))
  {
    var s := Render(negative, whole, places);
    var body := whole + "." + places;
    if negative {
      assert s == "-" + body && s[1..] == body;
    } else {
      assert s == body && s[0] == whole[0];
    }
    assert body[..|body| - 5] == whole;
    assert body[|body| - 4..] == places;
  }

  /** Where the point is in `whole + "." + rest` when `whole` is all digits. */
  lemma FindPoint(whole: string, rest: string)
    requires AllDigits(whole)
    ensures Find(whole + "." + rest, '.') == |whole|
  {
    var s := whole + "." + rest;
    assert s[|whole|] == '.';
  }

  lemma {:induction false} LeadingZerosValue(z: string, w: string)
    requires forall k :: 0 <= k < |z| ==> z[k] == '0'
    requires AllDigits(w)
    ensures AllDigits(z + w) && DigitsValue(z + w) == DigitsValue(w)
    decreases |w|
  {
    if w == [] {
      assert z + w == z;
      AllZerosValue(z);
    } else {
      assert (z + w)[..|z + w| - 1] == z + w[..|w| - 1];
      LeadingZerosValue(z, w[..|w| - 1]);
    }
  }

  lemma {:induction false} AllZerosValue(z: string)
    requires forall k :: 0 <= k < |z| ==> z[k] == '0'
    ensures AllDigits(z) && DigitsValue(z) == 0
  {
    if z != [] {
      AllZerosValue(z[..|z| - 1]);
    }
  }

  /** A canonical four-place rendering converts to itself. */
  lemma Fixed4Canonical(s: string)
    requires IsFixed4(s)
    ensures Fixed4(s) == Some(s)
  {
    var negative, whole, places := CanonicalParts(s);
    RenderFixed(negative, whole, places);
  }

  /** The sign, whole digits and places of a canonical rendering. */
  lemma CanonicalParts(s: string) returns (negative: bool, whole: string, places: string)
    requires IsFixed4(s)
    ensures IsWhole(whole) && AllDigits(places) && |places| == Places
    ensures s == Render(negative, whole, places)
  {
    negative := |s| > 0 && s[0] == '-';
    var body := if negative then s[1..] else s;
    whole := body[..|body| - 5];
    places := body[|body| - 4..];
    assert body == whole + "." + places;
    if negative {
      assert s == [s[0]] + s[1..];
    }
  }

  /** Rendering canonical parts and converting the result gives the same text. */
  lemma RenderFixed(negative: bool, whole: string, places: string)
    requires IsWhole(whole) && AllDigits(places) && |places| == Places
    ensures Fixed4(Render(negative, whole, places)) == Some(Render(negative, whole, places))
  {
    var s := Render(negative, whole, places);
    RenderIsFixed4(negative, whole, places);
    FixedNoSpace(s);
    StripNoSpace(s);
    ParseRendered(negative, whole, places);
    CanonicalLiteral(negative, whole, places);
  }

  lemma CanonicalLiteral(negative: bool, whole: string, places: string)
    requires IsWhole(whole) && AllDigits(places) && |places| == Places
    ensures LiteralFixed4(Literal(negative, whole, places)) == Some(Render(negative, whole, places))
  {
    assert Pad(places) == places;
    CanonicalWhole(whole);
  }

  /** Dropping the leading zeros of canonical whole digits, then writing `0` for nothing, gives them back. */
  lemma CanonicalWhole(whole: string)
    requires IsWhole(whole)
    ensures var w := LStripChar(whole, '0'); |w| <= MaxWholeDigits && (if w == [] then "0" else w) == whole
  {
    if whole[0] == '0' {
      assert whole == "0";
      assert whole[1..] == [];
    }
  }

  /** Reading back a rendering gives its parts. */
  lemma ParseRendered(negative: bool, whole: string, places: string)
    requires AllDigits(whole) && AllDigits(places) && |whole| > 0
    ensures ParseLiteral(Render(negative, whole, places)) == Some(Literal(negative, whole, places))
  {
    var s := Render(negative, whole, places);
    var body := whole + "." + places;
    RenderShape(negative, whole, places);
    SplitRendered(whole, places);
    if negative {
      ParseLiteralParts(s, true, body, whole, places);
    } else {
      assert s[0] == whole[0];
      ParseLiteralParts(s, false, body, whole, places);
    }
  }

  /** `ParseLiteral` in terms of the sign it finds and the split of what follows the sign. */
  lemma ParseLiteralParts(s: string, negative: bool, body: string, whole: string, frac: string)
    requires negative ==> |s| > 0 && s[0] == '-' && body == s[1..]
    requires !negative ==> body == s && (s == [] || (s[0] != '+' && s[0] != '-'))
    requires SplitPoint(body) == (whole, frac)
    requires AllDigits(whole) && AllDigits(frac) && |whole| + |frac| > 0
    ensures ParseLiteral(s) == Some(Literal(negative, whole, frac))
  {
  }

  lemma RenderShape(negative: bool, whole: string, places: string)
    ensures var s := Render(negative, whole, places);
            && (negative ==> |s| > 0 && s[0] == '-' && s[1..] == whole + "." + places)
            && (!negative ==> s == whole + "." + places)
  {
  }

  lemma SplitRendered(whole: string, places: string)
    requires AllDigits(whole)
    ensures SplitPoint(whole + "." + places) == (whole, places)
  {
    var body := whole + "." + places;
    FindPoint(whole, places);
    assert body[..|whole|] == whole;
    assert body[|whole| + 1..] == places;
  }

  /** A canonical rendering is one word: no whitespace, no `;`, and it starts with a digit or `-`. */
  lemma FixedNoSpace(s: string)
    requires IsFixed4(s)
    ensures s != [] && NoSpace(s) && ';' !in s
    ensures s[0] == '-' || IsDigit(s[0])
    ensures forall k :: 0 <= k < |s| ==> IsDigit(s[k]) || s[k] == '-' || s[k] == '.'
  {
    var body := if |s| > 0 && s[0] == '-' then s[1..] else s;
    var whole := body[..|body| - 5];
    var places := body[|body| - 4..];
    assert body == whole + "." + places;
    forall k | 0 <= k < |body|
      ensures IsDigit(body[k]) || body[k] == '.'
    {
      if k < |whole| { assert body[k] == whole[k]; }
      else if k > |whole| { assert body[k] == places[k - |whole| - 1]; }
    }
    if |s| > 0 && s[0] == '-' {
      forall k | 1 <= k < |s| ensures IsDigit(s[k]) || s[k] == '.' { assert s[k] == body[k - 1]; }
    }
  }

  predicate NumberChar(c: char) {
    IsDigit(c) || c == '-' || c == '+' || c == '.'
  }

  predicate AllNumberChars(s: string) {
    forall k :: 0 <= k < |s| ==> NumberChar(s[k])
  }

  lemma ConcatNumberChars(a: string, b: string)
    requires AllNumberChars(a) && AllNumberChars(b)
    ensures AllNumberChars(a + b)
  {
    forall k | 0 <= k < |a + b| ensures NumberChar((a + b)[k]) {
      if k >= |a| { assert (a + b)[k] == b[k - |a|]; }
    }
  }

  /** The text a covered literal is made of: digits, signs and the point. */
  lemma LiteralChars(s: string)
    requires ParseLiteral(s).Some?
    ensures s != [] && AllNumberChars(s)
  {
    var signed := |s| > 0 && (s[0] == '+' || s[0] == '-');
    var body := if signed then s[1..] else s;
    var lit := ParseLiteral(s).value;
    assert SplitPoint(body) == (lit.whole, lit.frac);
    var tail := if '.' in body then "." + lit.frac else "";
    BodyShape(body, lit, tail);
    BodyChars(lit.whole, lit.frac, tail);
    if signed {
      SignedChars(s);
    }
  }

  lemma SignedChars(s: string)
    requires |s| > 0 && (s[0] == '+' || s[0] == '-')
    requires AllNumberChars(s[1..])
    ensures AllNumberChars(s)
  {
    assert s == [s[0]] + s[1..];
    ConcatNumberChars([s[0]], s[1..]);
  }

  lemma BodyShape(body: string, lit: Literal, tail: string)
    requires SplitPoint(body) == (lit.whole, lit.frac)
    requires tail == if '.' in body then "." + lit.frac else ""
    ensures body == lit.whole + tail
  {
  }

  lemma BodyChars(whole: string, frac: string, tail: string)
    requires AllDigits(whole) && AllDigits(frac)
    requires tail == "" || tail == "." + frac
    ensures AllNumberChars(whole + tail)
  {
    ConcatNumberChars(".", frac);
    ConcatNumberChars(whole, tail);
  }

  /** The conversion is exact: the rendering has the sign and, to the ten-thousandth, the value of the literal read. */
  lemma Fixed4Exact(lit: Literal)
    requires AllDigits(lit.whole) && AllDigits(lit.frac)
    requires LiteralFixed4(lit).Some?
    ensures var back := ParseLiteral(LiteralFixed4(lit).value);
            && back.Some? && |back.value.frac| == Places && |lit.frac| <= Places
            && back.value.negative == lit.negative
            && Scaled(back.value) == Scaled(lit)
  {
    var whole, places := RenderedParts(lit);
    ParseRendered(lit.negative, whole, places);
    SameScaled(lit, Literal(lit.negative, whole, places));
  }

  /**
   * Every covered literal converts: the text converts exactly when its literal
   * has at most four places and, leading zeros dropped, at most eleven whole
   * digits, and the rendering then has the literal's sign and value.
   */
  lemma Fixed4Converts(text: string, lit: Literal)
    requires ParseLiteral(Strip(text)) == Some(lit)
    ensures Fixed4(text) == LiteralFixed4(lit)
    ensures Fixed4(text).Some? <==> |lit.frac| <= Places && |LStripChar(lit.whole, '0')| <= MaxWholeDigits
    ensures Fixed4(text).Some? ==>
              var back := ParseLiteral(Fixed4(text).value);
              && back.Some? && |back.value.frac| == Places
              && back.value.negative == lit.negative && Scaled(back.value) == Scaled(lit)
  {
    if LiteralFixed4(lit).Some? {
      Fixed4Exact(lit);
    }
  }

  /** The rendering of a covered literal, given its whole digits with the leading zeros dropped. */
  lemma CoveredLiteral(lit: Literal, whole: string)
    requires AllDigits(lit.whole) && AllDigits(lit.frac) && |lit.frac| <= Places
    requires whole == (if LStripChar(lit.whole, '0') == [] then "0" else LStripChar(lit.whole, '0'))
    requires |whole| <= MaxWholeDigits
    ensures LiteralFixed4(lit) == Some(Render(lit.negative, whole, Pad(lit.frac)))
  {
  }

  /** A conversion worked out: `1.5` becomes `1.5000`. */
  lemma Fixed4OnePointFive()
    ensures Fixed4("1.5") == Some("1.5000")
  {
    ParseOnePointFive();
    RenderOnePointFive();
    Fixed4Converts("1.5", Literal(false, "1", "5"));
  }

  lemma ParseOnePointFive()
    ensures ParseLiteral(Strip("1.5")) == Some(Literal(false, "1", "5"))
  {
    assert "1" + "." + "5" == "1.5";
    StripNoSpace("1.5");
    SplitRendered("1", "5");
    ParseLiteralParts("1.5", false, "1.5", "1", "5");
  }

  lemma RenderOnePointFive()
    ensures LiteralFixed4(Literal(false, "1", "5")) == Some("1.5000")
  {
    assert LStripChar("1", '0') == "1";
    assert Pad("5") == "5000" by { assert Zeros(3) == "000"; }
    CoveredLiteral(Literal(false, "1", "5"), "1");
    assert Render(false, "1", "5000") == "1.5000";
  }

  /** A conversion worked out: `-0.25` becomes `-0.2500`. */
  lemma Fixed4MinusQuarter()
    ensures Fixed4("-0.25") == Some("-0.2500")
  {
    ParseMinusQuarter();
    RenderMinusQuarter();
    Fixed4Converts("-0.25", Literal(true, "0", "25"));
  }

  lemma ParseMinusQuarter()
    ensures ParseLiteral(Strip("-0.25")) == Some(Literal(true, "0", "25"))
  {
    assert "0" + "." + "25" == "0.25";
    StripNoSpace("-0.25");
    SplitRendered("0", "25");
    assert "-0.25"[1..] == "0.25";
    ParseLiteralParts("-0.25", true, "0.25", "0", "25");
  }

  lemma RenderMinusQuarter()
    ensures LiteralFixed4(Literal(true, "0", "25")) == Some("-0.2500")
  {
    assert LStripChar("0", '0') == [] by { assert "0"[1..] == []; }
    assert Pad("25") == "2500" by { assert Zeros(2) == "00"; }
    CoveredLiteral(Literal(true, "0", "25"), "0");
    assert Render(true, "0", "2500") == "-0.2500";
  }

  /** The whole digits and places `LiteralFixed4` lays out, and their value. */
  lemma RenderedParts(lit: Literal) returns (whole: string, places: string)
    requires AllDigits(lit.whole) && AllDigits(lit.frac)
    requires LiteralFixed4(lit).Some?
    ensures IsWhole(whole) && AllDigits(places) && |lit.frac| <= Places && places == Pad(lit.frac)
    ensures LiteralFixed4(lit) == Some(Render(lit.negative, whole, places))
    ensures DigitsValue(whole) == DigitsValue(lit.whole)
  {
    var w := LStripChar(lit.whole, '0');
    whole := if w == [] then "0" else w;
    SuffixDigits(lit.whole, |lit.whole| - |w|);
    places := Pad(lit.frac);
    StrippedValue(lit.whole);
    if w == [] {
      assert "0"[..0] == [];
    }
  }

  lemma SameScaled(a: Literal, b: Literal)
    requires AllDigits(a.whole) && AllDigits(a.frac) && |a.frac| <= Places
    requires AllDigits(b.whole) && AllDigits(b.frac) && |b.frac| == Places
    requires a.negative == b.negative && DigitsValue(a.whole) == DigitsValue(b.whole)
    requires Pad(a.frac) == b.frac
    ensures Scaled(a) == Scaled(b)
  {
    assert Pad(b.frac) == b.frac;
  }

  /** Leading zeros do not change the value of a digit string. */
  lemma StrippedValue(s: string)
    requires AllDigits(s)
    ensures AllDigits(LStripChar(s, '0')) && DigitsValue(LStripChar(s, '0')) == DigitsValue(s)
  {
    var w := LStripChar(s, '0');
    LStripCharSuffix(s, '0');
    var zeros := s[..|s| - |w|];
    assert s == zeros + w;
    SuffixDigits(s, |s| - |w|);
    LeadingZerosValue(zeros, w);
  }

  /** `"%.4f" % float("0")` is `0.0000`, the form the default diameter and Z offset take once saved and loaded. */
  lemma ZeroConverts()
    ensures Fixed4("0") == Some("0.0000")
  {
    DigitsParse("0");
    ZeroLiteral();
  }

  /** A run of digits is a literal with no sign and no fraction. */
  lemma DigitsParse(s: string)
    requires s != [] && AllDigits(s)
    ensures ParseLiteral(Strip(s)) == Some(Literal(false, s, ""))
  {
    StripNoSpace(s);
    assert '.' !in s by { assert forall k :: 0 <= k < |s| ==> s[k] != '.'; }
    assert SplitPoint(s) == (s, "");
    ParseLiteralParts(s, false, s, s, "");
  }

  lemma ZeroLiteral()
    ensures LiteralFixed4(Literal(false, "0", "")) == Some("0.0000")
  {
    assert LStripChar("0", '0') == [] by { assert "0"[1..] == []; }
    assert Pad("") == "0000" by {
      var z := Zeros(4);
      assert z[0] == '0' && z[1] == '0' && z[2] == '0' && z[3] == '0';
      assert "" + z == z;
    }
    assert Render(false, "0", "0000") == "0.0000";
  }
}
