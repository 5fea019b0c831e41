/**
 * The few string builtins of Python 2 the tool-table code relies on:
 * `str.find`, `str.startswith`, `str.rstrip`, `str.lstrip`, `str.strip`
 * and `str.split()`. Whitespace is what these methods treat as whitespace
 * on byte strings: space, tab, newline, carriage return, vertical tab and
 * form feed.
 */
module Text {

  predicate IsSpace(c: char) {
    c == ' ' || c == '\t' || c == '\n' || c == '\r' || c == '\U{000B}' || c == '\U{000C}'
  }

  predicate IsDigit(c: char) {
    '0' <= c <= '9'
  }

  predicate AllDigits(s: string) {
    forall k :: 0 <= k < |s| ==> IsDigit(s[k])
  }

  /** A string with no whitespace in it. */
  predicate NoSpace(s: string) {
    forall k :: 0 <= k < |s| ==> !IsSpace(s[k])
  }

  /** What `str.split()` can produce: a non-empty run of non-whitespace. */
  predicate IsWord(w: string) {
    w != [] && NoSpace(w)
  }

  /** `s.startswith(c)` for a one-letter prefix. */
  predicate StartsWith(s: string, c: char) {
    |s| > 0 && s[0] == c
  }

  /** `s.find(c)`: the lowest index holding `c`, or -1. */
  function Find(s: string, c: char): (i: int)
    ensures -1 <= i < |s|
    ensures i == -1 <==> c !in s
    ensures 0 <= i ==> s[i] == c && c !in s[..i]
  {
    if |s| == 0 then -1
    else if s[0] == c then 0
    else
      var j := Find(s[1..], c);
      assert s == [s[0]] + s[1..];
      if j == -1 then -1
      else
        assert s[..j + 1] == [s[0]] + s[1..][..j];
        j + 1
  }

  /** `s.rstrip(c)` for one character: every trailing copy of `c` removed. */
  function RStripChar(s: string, c: char): (r: string)
    ensures |r| <= |s|
    ensures forall k :: |r| <= k < |s| ==> s[k] == c
    ensures r == [] || r[|r| - 1] != c
  {
    if |s| > 0 && s[|s| - 1] == c then RStripChar(s[..|s| - 1], c) else s
  }

  /** `s.lstrip(c)` for one character: every leading copy of `c` removed. */
  function LStripChar(s: string, c: char): (r: string)
    ensures |r| <= |s|
    ensures forall k :: 0 <= k < |s| - |r| ==> s[k] == c
    ensures r == [] || r[0] != c
  {
    if |s| > 0 && s[0] == c then LStripChar(s[1..], c) else s
  }

  /** `s.rstrip()`: trailing whitespace removed. */
  function RStrip(s: string): (r: string)
    ensures |r| <= |s|
    ensures forall k :: |r| <= k < |s| ==> IsSpace(s[k])
    ensures r == [] || !IsSpace(r[|r| - 1])
  {
    if |s| > 0 && IsSpace(s[|s| - 1]) then RStrip(s[..|s| - 1]) else s
  }

  /** `s.lstrip()`: leading whitespace removed. */
  function LStrip(s: string): (r: string)
    ensures |r| <= |s|
    ensures forall k :: 0 <= k < |s| - |r| ==> IsSpace(s[k])
    ensures r == [] || !IsSpace(r[0])
  {
    if |s| > 0 && IsSpace(s[0]) then LStrip(s[1..]) else s
  }

  /** `s.strip()`: whitespace removed at both ends. */
  function Strip(s: string): string {
    LStrip(RStrip(s))
  }

  /** The length of the leading run of non-whitespace in `s`. */
  function WordEnd(s: string): (n: nat)
    ensures n <= |s|
    ensures forall k :: 0 <= k < n ==> !IsSpace(s[k])
    ensures n < |s| ==> IsSpace(s[n])
  {
    if |s| == 0 || IsSpace(s[0]) then 0 else 1 + WordEnd(s[1..])
  }

  /** `s.split()`: the maximal runs of non-whitespace, in order. */
  function Split(s: string): (words: seq<string>)
    ensures forall k :: 0 <= k < |words| ==> IsWord(words[k])
    decreases |s|
  {
    var t := LStrip(s);
    if t == [] then []
    else
      var n := WordEnd(t);
      assert n > 0 by { assert !IsSpace(t[0]); }
      assert IsWord(t[..n]);
      [t[..n]] + Split(t[n..])
  }

  /** Only whitespace. */
  predicate AllSpace(s: string) {
    forall k :: 0 <= k < |s| ==> IsSpace(s[k])
  }

  /** `gaps[0] + words[0] + gaps[1] + ... + words[n - 1] + gaps[n]`. */
  function Weave(gaps: seq<string>, words: seq<string>): string
    requires |gaps| == |words| + 1
    decreases |words|
  {
    if words == [] then gaps[0] else gaps[0] + words[0] + Weave(gaps[1..], words[1..])
  }

  /**
   * `s` is `words` laid out between the runs of whitespace `gaps`, every run
   * between two words non-empty.
   */
  predicate Layout(s: string, gaps: seq<string>, words: seq<string>) {
    && |gaps| == |words| + 1
    && (forall i :: 0 <= i < |gaps| ==> AllSpace(gaps[i]))
    && (forall i :: 0 < i < |gaps| - 1 ==> gaps[i] != [])
    && s == Weave(gaps, words)
  }

  /**
   * `split()` takes the text apart completely: the text is its words laid out
   * between runs of whitespace, so the words are the maximal runs of
   * non-whitespace, in order.
   */
  lemma {:induction false} SplitLayout(s: string) returns (gaps: seq<string>)
    ensures Layout(s, gaps, Split(s))
    decreases |s|
  {
    var t := LStrip(s);
    if t == [] {
      gaps := [s];
      assert Weave(gaps, []) == s;
    } else {
      var lead, word, rest := SplitFirst(s);
      var inner := SplitLayout(rest);
      gaps := LayoutStep(lead, word, rest, inner, Split(rest));
    }
  }

  /** The leading whitespace, the first word and what follows it, for a text with a word in it. */
  lemma SplitFirst(s: string) returns (lead: string, word: string, rest: string)
    requires LStrip(s) != []
    ensures AllSpace(lead) && IsWord(word) && (rest == [] || IsSpace(rest[0]))
    ensures s == lead + (word + rest) && |rest| < |s|
    ensures Split(s) == [word] + Split(rest)
  {
    var t := LStrip(s);
    LStripSuffix(s);
    lead := s[..|s| - |t|];
    assert s == lead + t;
    var n := WordEnd(t);
    assert n > 0 by { assert !IsSpace(t[0]); }
    word, rest := t[..n], t[n..];
    assert t == word + rest;
  }

  /** Whitespace and a word in front of a laid-out text: one more gap and one more word. */
  lemma LayoutStep(lead: string, word: string, rest: string, inner: seq<string>, words: seq<string>)
    returns (gaps: seq<string>)
    requires AllSpace(lead) && IsWord(word) && (rest == [] || IsSpace(rest[0]))
    requires Layout(rest, inner, words)
    requires forall k :: 0 <= k < |words| ==> IsWord(words[k])
    ensures Layout(lead + (word + rest), gaps, [word] + words)
  {
    WeaveHead(inner, words);
    gaps := [lead] + inner;
    assert gaps[1..] == inner;
    assert ([word] + words)[1..] == words;
    AppendAssoc(lead, word, rest);
  }

  /** A layout without leading whitespace starts with its first word. */
  lemma WeaveHead(gaps: seq<string>, words: seq<string>)
    requires |gaps| == |words| + 1
    ensures words != [] && words[0] != [] && gaps[0] == [] ==> Weave(gaps, words)[0] == words[0][0]
  {
    if words != [] && words[0] != [] && gaps[0] == [] {
      assert Weave(gaps, words) == words[0] + Weave(gaps[1..], words[1..]);
    }
  }

  /** Sequence concatenation is associative. */
  lemma AppendAssoc<T>(a: seq<T>, b: seq<T>, c: seq<T>)
    ensures a + b + c == a + (b + c)
  {
  }

  /** `rstrip()` keeps a prefix. */
  lemma {:induction false} RStripPrefix(s: string)
    ensures RStrip(s) == s[..|RStrip(s)|]
  {
    if |s| > 0 && IsSpace(s[|s| - 1]) {
      RStripPrefix(s[..|s| - 1]);
    }
  }

  /** `rstrip(c)` keeps a prefix. */
  lemma {:induction false} RStripCharPrefix(s: string, c: char)
    ensures RStripChar(s, c) == s[..|RStripChar(s, c)|]
  {
    if |s| > 0 && s[|s| - 1] == c {
      RStripCharPrefix(s[..|s| - 1], c);
    }
  }

  /** `lstrip(c)` keeps a suffix. */
  lemma {:induction false} LStripCharSuffix(s: string, c: char)
    ensures LStripChar(s, c) == s[|s| - |LStripChar(s, c)|..]
  {
    if |s| > 0 && s[0] == c {
      LStripCharSuffix(s[1..], c);
    }
  }

  /** `lstrip()` keeps a suffix. */
  lemma {:induction false} LStripSuffix(s: string)
    ensures LStrip(s) == s[|s| - |LStrip(s)|..]
  {
    if |s| > 0 && IsSpace(s[0]) {
      LStripSuffix(s[1..]);
    }
  }

  /** A string without whitespace is its own strip. */
  lemma StripNoSpace(s: string)
    requires NoSpace(s)
    ensures RStrip(s) == s && LStrip(s) == s && Strip(s) == s
  {
  }

  /** Stripping once more changes nothing. */
  lemma StripIdempotent(s: string)
    ensures Strip(Strip(s)) == Strip(s)
  {
    var t := Strip(s);
    if t != [] {
      assert !IsSpace(t[0]);
      LStripSuffix(RStrip(s));
      assert !IsSpace(t[|t| - 1]);
    }
  }

  /** Whitespace appended after a stripped string is stripped off again. */
  lemma {:induction false} StripTrailingSpace(s: string)
    ensures Strip(Strip(s) + " ") == Strip(s)
  {
    var t := Strip(s);
    StripIdempotent(s);
    assert RStrip(t + " ") == RStrip(t) by {
      assert (t + " ")[..|t|] == t;
    }
  }

  /** `rstrip("\n")` of a line that ends in a space and then a newline. */
  lemma RStripNewlineAfterSpace(s: string)
    ensures RStripChar(s + " \n", '\n') == s + " "
  {
    var line := s + " \n";
    assert line[..|line| - 1] == s + " ";
  }

  /** `rstrip()` removes a single trailing space after a word-final character. */
  lemma RStripOneSpace(s: string)
    requires s != [] && !IsSpace(s[|s| - 1])
    ensures RStrip(s + " ") == s
  {
    assert (s + " ")[..|s|] == s;
  }

  /** Splitting a word followed by a space and more text. */
  lemma SplitWord(w: string, rest: string)
    requires IsWord(w)
    ensures Split(w + " " + rest) == [w] + Split(rest)
  {
    var s := w + " " + rest;
    assert LStrip(s) == s;
    assert WordEnd(s) == |w| by { WordEndOf(w, " " + rest); assert s == w + (" " + rest); }
    assert s[..|w|] == w;
    assert s[|w|..] == " " + rest;
    assert LStrip(" " + rest) == LStrip(rest) by { assert (" " + rest)[1..] == rest; }
  }

  /** Splitting a single word. */
  lemma SplitOneWord(w: string)
    requires IsWord(w)
    ensures Split(w) == [w]
  {
    assert LStrip(w) == w;
    assert WordEnd(w) == |w| by {
      WordEndOf(w, "");
      assert w + "" == w;
    }
    assert w[..|w|] == w;
    assert Split(w[|w|..]) == [] by {
      assert w[|w|..] == [];
      assert LStrip([]) == [];
    }
  }

  lemma {:induction false} WordEndOf(w: string, rest: string)
    requires NoSpace(w)
    requires rest == [] || IsSpace(rest[0])
    ensures WordEnd(w + rest) == |w|
    decreases |w|
  {
    if w != [] {
      assert (w + rest)[1..] == w[1..] + rest;
      WordEndOf(w[1..], rest);
    }
  }
}
