/** The reading policies of a tool-table line, stated over `ParseLine`. */
module LineRules {
  import opened Wrappers
  import opened Text
  import opened Ints
  import opened Decimals
  import opened Log
  import opened Codec
  import RoundTrip

  /** `ParseLine` unfolded for the comment column, the second half of `SplitComment`. A helper that only restates the definition. */
  lemma CommentColumn(line: string)
    ensures ParseLine(line).row.comment == SplitComment(line).1
  {
  }

  /**
   * The comment is everything after the first `;`, leading and trailing
   * spaces and later `;` included, with only the trailing newlines removed.
   */
  lemma CommentAfterFirstSemicolon(data: string, comment: string)
    requires ';' !in data
    ensures ParseLine(data + ";" + comment).row.comment == RStripChar(comment, '\n')
  {
    RoundTrip.SplitCommentAt(data, comment);
    CommentColumn(data + ";" + comment);
  }

  /** A line without `;` has an empty comment. */
  lemma NoSemicolonNoComment(line: string)
    requires ';' !in line
    ensures ParseLine(line).row.comment == ""
  {
    CommentColumn(line);
  }

  /**
   * Only the first word starting with a keyword letter is looked at: words
   * after it change nothing, whether it converted or not.
   */
  lemma FirstMatchWins(words: seq<string>, later: seq<string>, letter: char, data: string)
    requires FirstWith(words, letter).Some?
    ensures IntField(words + later, letter, data) == IntField(words, letter, data)
    ensures FloatField(words + later, letter, data) == FloatField(words, letter, data)
  {
    FirstWithAppend(words, later, letter);
    var k := FirstWith(words, letter).value;
    assert (words + later)[k] == words[k];
  }

  /** Appending words after a match does not move the first match. */
  lemma FirstWithAppend(words: seq<string>, later: seq<string>, letter: char)
    requires FirstWith(words, letter).Some?
    ensures FirstWith(words + later, letter) == FirstWith(words, letter)
  {
    var k := FirstWith(words, letter).value;
    assert forall j :: 0 <= j <= k ==> (words + later)[j] == words[j];
    RoundTrip.FirstWithAt(words + later, letter, k);
  }

  /** A keyword without any word is absent and logs nothing. */
  lemma AbsentKeyword(words: seq<string>, letter: char, data: string)
    requires forall k :: 0 <= k < |words| ==> !StartsWith(words[k], letter)
    ensures IntField(words, letter, data) == Absent
    ensures FloatField(words, letter, data) == Absent
  {
  }

  /**
   * A line none of whose words starts with T, P, D or Z (a blank line, a
   * comment line) reads as the default row with its comment, and logs nothing.
   */
  lemma NoKeywordDefaults(line: string)
    requires forall k :: 0 <= k < |Split(SplitComment(line).0)| ==>
               var w := Split(SplitComment(line).0)[k];
               !StartsWith(w, 'T') && !StartsWith(w, 'P') && !StartsWith(w, 'D') && !StartsWith(w, 'Z')
    ensures ParseLine(line) == LineResult(DefaultRow(SplitComment(line).1), [])
  {
    var data := SplitComment(line).0;
    AbsentKeyword(Split(data), 'T', data);
    AbsentKeyword(Split(data), 'P', data);
    AbsentKeyword(Split(data), 'D', data);
    AbsentKeyword(Split(data), 'Z', data);
  }

  /**
   * Every leading copy of the keyword letter is stripped before conversion:
   * a doubled letter before a number reads as that number (`TT5` is tool 5),
   * and before four-place text as that text (`DD1.5000` is diameter `1.5000`).
   */
  lemma RepeatedLetterStripped(letter: char, n: int, fixed: string, data: string)
    requires !IsDigit(letter) && letter != '-' && !IsSpace(letter)
    requires IsFixed4(fixed)
    ensures IntField([[letter, letter] + IntToString(n)], letter, data) == Converted(n)
    ensures FloatField([[letter, letter] + fixed], letter, data) == Converted(fixed)
  {
    DoubledLetter(letter, IntToString(n));
    RoundTrip.FirstWithAt([[letter, letter] + IntToString(n)], letter, 0);
    IntRoundTrip(n);
    FixedNoSpace(fixed);
    DoubledLetter(letter, fixed);
    RoundTrip.FirstWithAt([[letter, letter] + fixed], letter, 0);
    Fixed4Canonical(fixed);
  }

  /** Stripping a doubled letter from a value that does not start with it. */
  lemma DoubledLetter(letter: char, value: string)
    requires value != [] && value[0] != letter
    ensures StartsWith([letter, letter] + value, letter)
    ensures LStripChar([letter, letter] + value, letter) == value
  {
    var w := [letter, letter] + value;
    assert w[1..] == [letter] + value;
    assert w[1..][1..] == value;
    assert LStripChar(value, letter) == value;
    assert LStripChar(w[1..], letter) == LStripChar(value, letter);
  }

  /** A bare keyword letter leaves nothing to convert: the column keeps its default and one error quotes an empty value. */
  lemma BareLetter(letter: char, data: string)
    ensures IntField([[letter]], letter, data) == Unconvertible(CantConvert("", Integer, data))
    ensures FloatField([[letter]], letter, data) == Unconvertible(CantConvert("", Float, data))
  {
    assert [letter][1..] == [];
    RoundTrip.FirstWithAt([[letter]], letter, 0);
    assert PyInt("") == None;
    assert Fixed4("") == None;
  }
}
