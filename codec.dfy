/**
 * The tool-table text format: one tool per line,
 * `T<tool> P<pocket> D<diameter> Z<offset> ;<comment>`.
 * `ParseLine` is what `load_tool_table` makes of one line of the file and
 * `FormatRow` what `save_tool_table` writes for one row of the table.
 */
module Codec {
  import opened Wrappers
  import opened Text
  import opened Ints
  import opened Decimals
  import opened Log

  /** The colour column: white, or gray for the tool in the spindle. */
  datatype Colour = White | Gray

  /** One row of the table; its columns 0 to 6 are check box, tool, pocket, diameter, Z offset, comment, colour. */
  datatype Row = Row(selected: bool, tool: int, pocket: int, dia: string, z: string, comment: string, colour: Colour)

  /** The keyword letter of each column but the last. The check box (`S`) and the comment (`;`) are never scanned for. */
  const Keywords: seq<char> := ['S', 'T', 'P', 'D', 'Z', ';']

  /** The row a line yields and the errors logged while reading it. */
  datatype LineResult = LineResult(row: Row, errors: seq<LogEntry>)

  /** What scanning the words of a line for one keyword finds. */
  datatype Field<T> = Absent | Converted(value: T) | Unconvertible(error: LogEntry) {

    /** The value the column ends up with. */
    function Or(default: T): T {
      if Converted? then value else default
    }

    /** The errors logged for the column. */
    function Errors(): (errors: seq<LogEntry>)
      ensures |errors| <= 1
      ensures errors == [] <==> !Unconvertible?
    {
      if Unconvertible? then [error] else []
    }
  }

  /** The row every line starts from: tool and pocket 1, diameter and Z offset `0`. */
  function DefaultRow(comment: string): Row {
    Row(false, 1, 1, "0", "0", comment, White)
  }

  /**
   * The data part and the comment of a line. The comment is what follows the
   * first `;` with its trailing newlines removed; the data part is what
   * precedes it with trailing whitespace removed. Without a `;` the comment is
   * empty and the data part is the line without its trailing newlines.
   */
  function SplitComment(line: string): (string, string) {
    var index := Find(line, ';');
    if index == -1 then (RStripChar(line, '\n'), "")
    else (RStrip(line[..index]), RStripChar(line[index + 1..], '\n'))
  }

  /** The index of the first word that starts with `letter`. */
  function FirstWith(words: seq<string>, letter: char): (r: Option<nat>)
    ensures r.Some? ==> r.value < |words| && StartsWith(words[r.value], letter)
    ensures r.Some? ==> forall k :: 0 <= k < r.value ==> !StartsWith(words[k], letter)
    ensures r.None? ==> forall k :: 0 <= k < |words| ==> !StartsWith(words[k], letter)
  {
    if words == [] then None
    else if StartsWith(words[0], letter) then Some(0)
    else
      match FirstWith(words[1..], letter)
      case None => None
      case Some(k) => Some(k + 1)
  }

  /** The tool or pocket column: the first word starting with `letter`, every leading `letter` stripped, read by `int()`. */
  function IntField(words: seq<string>, letter: char, data: string): (f: Field<int>)
    ensures f.Unconvertible? ==> f.error.CantConvert? && f.error.kind == Integer
  {
    match FirstWith(words, letter)
    case None => Absent
    case Some(k) =>
      var token := LStripChar(words[k], letter);
      match PyInt(token)
      case Some(v) => Converted(v)
      case None => Unconvertible(CantConvert(token, Integer, data))
  }

  /** The diameter or Z-offset column: the first word starting with `letter`, every leading `letter` stripped, read by `"%.4f" % float()`. */
  function FloatField(words: seq<string>, letter: char, data: string): (f: Field<string>)
    ensures f.Converted? ==> IsFixed4(f.value)
    ensures f.Unconvertible? ==> f.error.CantConvert? && f.error.kind == Float
  {
    match FirstWith(words, letter)
    case None => Absent
    case Some(k) =>
      var token := LStripChar(words[k], letter);
      match Fixed4(token)
      case Some(v) => Converted(v)
      case None => Unconvertible(CantConvert(token, Float, data))
  }

  /** One line of the file read as `load_tool_table` reads it. */
  function ParseLine(line: string): (r: LineResult)
    ensures !r.row.selected && r.row.colour == White
    ensures r.row.dia == "0" || IsFixed4(r.row.dia)
    ensures r.row.z == "0" || IsFixed4(r.row.z)
    ensures |r.errors| <= 4
  {
    var (data, comment) := SplitComment(line);
    var words := Split(data);
    var tool := IntField(words, 'T', data);
    var pocket := IntField(words, 'P', data);
    var dia := FloatField(words, 'D', data);
    var z := FloatField(words, 'Z', data);
    LineResult(
      Row(false, tool.Or(1), pocket.Or(1), dia.Or("0"), z.Or("0"), comment, White),
      tool.Errors() + pocket.Errors() + dia.Errors() + z.Errors())
  }

  /** The table and the log after reading `lines` in order. */
  datatype Loaded = Loaded(rows: seq<Row>, log: seq<LogEntry>)

  /** Reading a whole file: every line, in order, becomes a row; the errors of each line are logged in turn. */
  function Load(lines: seq<string>): Loaded {
    Gather(ReadLines(lines))
  }

  /** Every line read on its own. */
  function ReadLines(lines: seq<string>): (results: seq<LineResult>)
    ensures |results| == |lines|
    ensures forall i :: 0 <= i < |lines| ==> results[i] == ParseLine(lines[i])
  {
    seq(|lines|, i requires 0 <= i < |lines| => ParseLine(lines[i]))
  }

  /** Appends the rows of the read lines to an empty table and their errors to the log, line by line. */
  function Gather(results: seq<LineResult>): Loaded {
    if results == [] then Loaded([], [])
    else
      var before := Gather(results[..|results| - 1]);
      var last := results[|results| - 1];
      Loaded(before.rows + [last.row], before.log + last.errors)
  }

  /** The text of column `num` of a row as it is saved: tool and pocket as decimal integers, the rest stripped. */
  function ValueText(r: Row, num: nat): string {
    if num == 1 then IntToString(r.tool)
    else if num == 2 then IntToString(r.pocket)
    else if num == 3 then Strip(r.dia)
    else if num == 4 then Strip(r.z)
    else Strip(r.comment)
  }

  /** What column `num` contributes to a saved line: keyword letter, value, one space; nothing for the check box and the colour. */
  function ColumnText(r: Row, num: nat): string {
    if num == 0 || num >= 6 then "" else Word(r, num) + " "
  }

  /** Word `num` of a saved line: the column's keyword letter followed by its value. */
  function Word(r: Row, num: nat): string
    requires 1 <= num <= 5
  {
    [Keywords[num]] + ValueText(r, num)
  }

  /** The text of columns 0 to n - 1, appended left to right. */
  function Columns(r: Row, n: nat): string {
    if n == 0 then "" else Columns(r, n - 1) + ColumnText(r, n - 1)
  }

  /** The line `save_tool_table` writes for a row: its seven columns and a newline. */
  function FormatRow(r: Row): string {
    Columns(r, 7) + "\n"
  }

  /** The text of a file written line by line. */
  function FileText(lines: seq<string>): string {
    if lines == [] then "" else lines[0] + FileText(lines[1..])
  }

  /** `readlines()`: the text cut after every newline; a last line without one is kept as it is. */
  function FileLines(text: string): seq<string>
    decreases |text|
  {
    if text == [] then []
    else
      var i := Find(text, '\n');
      if i == -1 then [text] else [text[..i + 1]] + FileLines(text[i + 1..])
  }

  /** A line as `readlines()` returns it from inside a file: one newline, at its end. */
  predicate IsLine(line: string) {
    line != [] && line[|line| - 1] == '\n' && '\n' !in line[..|line| - 1]
  }

  /** The whole file `save_tool_table` writes: one line per row, in table order. */
  function Save(rows: seq<Row>): (lines: seq<string>)
    ensures |lines| == |rows|
  {
    seq(|rows|, i requires 0 <= i < |rows| => FormatRow(rows[i]))
  }
}

module RoundTrip {
  import opened Wrappers
  import opened Text
  import opened Ints
  import opened Decimals
  import opened Log
  import opened Codec

  /** The data part of a saved line: the four words, separated by single spaces. */
  function Data(r: Row): string {
    Word(r, 1) + " " + (Word(r, 2) + " " + (Word(r, 3) + " " + Word(r, 4)))
  }

  /** The seven columns of a row, written out. */
  lemma ColumnsWritten(r: Row)
    ensures Columns(r, 7)
         == (((Word(r, 1) + " ") + (Word(r, 2) + " ")) + (Word(r, 3) + " ")) + (Word(r, 4) + " ") + (Word(r, 5) + " ")
  {
    assert Columns(r, 1) == "";
    assert Columns(r, 2) == Word(r, 1) + " ";
    assert Columns(r, 3) == Columns(r, 2) + (Word(r, 2) + " ");
    assert Columns(r, 4) == Columns(r, 3) + (Word(r, 3) + " ");
    assert Columns(r, 5) == Columns(r, 4) + (Word(r, 4) + " ");
    assert Columns(r, 6) == Columns(r, 5) + (Word(r, 5) + " ");
    assert Columns(r, 7) == Columns(r, 6);
  }

  lemma Regroup(w1: string, w2: string, w3: string, w4: string, c: string)
    ensures (((w1 + " ") + (w2 + " ")) + (w3 + " ")) + (w4 + " ") + ((";" + c) + " ") + "\n"
         == ((w1 + " " + (w2 + " " + (w3 + " " + w4))) + " ") + ";" + (c + " \n")
  {
  }

  /** A saved line is its data part, one space, `;`, the stripped comment, one space and a newline. */
  lemma SavedLineShape(r: Row)
    ensures FormatRow(r) == (Data(r) + " ") + ";" + (Strip(r.comment) + " \n")
  {
    ColumnsWritten(r);
    assert Word(r, 5) == ";" + Strip(r.comment);
    Regroup(Word(r, 1), Word(r, 2), Word(r, 3), Word(r, 4), Strip(r.comment));
  }

  // ---------------------------------------------------------------------------
  // Reading a saved line back

  /** When the first `;` comes right after `data`, the line splits there. */
  lemma SplitCommentAt(data: string, rest: string)
    requires ';' !in data
    ensures SplitComment(data + ";" + rest) == (RStrip(data), RStripChar(rest, '\n'))
  {
    var line := data + ";" + rest;
    assert line[|data|] == ';';
    assert line[..|data|] == data;
    assert line[..|data| + 1][|data|] == ';';
    assert Find(line, ';') == |data|;
    assert line[|data| + 1..] == rest;
  }

  /** The first index at which a word starts with `letter`, given that none before it does. */
  lemma FirstWithAt(words: seq<string>, letter: char, k: nat)
    requires k < |words| && StartsWith(words[k], letter)
    requires forall j :: 0 <= j < k ==> !StartsWith(words[j], letter)
    ensures FirstWith(words, letter) == Some(k)
  {
  }

  /** A value as it is saved after its keyword letter: no whitespace, no `;`, and not starting with a keyword letter. */
  predicate Plain(s: string) {
    s != [] && NoSpace(s) && ';' !in s && s[0] != 'T' && s[0] != 'P' && s[0] != 'D' && s[0] != 'Z'
  }

  lemma IntPlain(n: int)
    ensures Plain(IntToString(n))
  {
    var s := IntToString(n);
    assert forall k :: 0 <= k < |s| ==> s[k] != ';' && !IsSpace(s[k]);
  }

  lemma LiteralPlain(s: string)
    requires ParseLiteral(s).Some?
    ensures Plain(s)
  {
    LiteralChars(s);
    assert forall k :: 0 <= k < |s| ==> s[k] != ';' && !IsSpace(s[k]);
  }

  /** A keyword letter followed by a plain value is one word, and stripping the letter gives the value back. */
  lemma KeywordWord(letter: char, s: string)
    requires Plain(s) && !IsSpace(letter) && s[0] != letter
    ensures IsWord([letter] + s) && LStripChar([letter] + s, letter) == s
  {
    var w := [letter] + s;
    assert w[1..] == s;
    assert forall k :: 0 < k < |w| ==> w[k] == s[k - 1];
  }

  lemma SplitTwo(c: string, d: string)
    requires IsWord(c) && IsWord(d)
    ensures var words := Split(c + " " + d); |words| == 2 && words[0] == c && words[1] == d
  {
    SplitOneWord(d);
    SplitWord(c, d);
  }

  lemma SplitThree(b: string, c: string, d: string)
    requires IsWord(b) && IsWord(c) && IsWord(d)
    ensures var words := Split(b + " " + (c + " " + d)); |words| == 3 && words[0] == b && words[1] == c && words[2] == d
  {
    SplitTwo(c, d);
    SplitWord(b, c + " " + d);
  }

  /** Four words separated by single spaces split into those four words. */
  lemma SplitFour(a: string, b: string, c: string, d: string)
    requires IsWord(a) && IsWord(b) && IsWord(c) && IsWord(d)
    ensures var words := Split(a + " " + (b + " " + (c + " " + d)));
            |words| == 4 && words[0] == a && words[1] == b && words[2] == c && words[3] == d
  {
    SplitThree(b, c, d);
    SplitWord(a, b + " " + (c + " " + d));
  }

  /** Four plain values after their keyword letters, separated by single spaces, split back into the four words. */
  lemma DataWords(tool: string, pocket: string, dia: string, z: string)
    requires Plain(tool) && Plain(pocket) && Plain(dia) && Plain(z)
    ensures var words := Split(['T'] + tool + " " + (['P'] + pocket + " " + (['D'] + dia + " " + (['Z'] + z))));
            && |words| == 4
            && words[0] == ['T'] + tool && words[1] == ['P'] + pocket
            && words[2] == ['D'] + dia && words[3] == ['Z'] + z
    ensures LStripChar(['T'] + tool, 'T') == tool && LStripChar(['P'] + pocket, 'P') == pocket
    ensures LStripChar(['D'] + dia, 'D') == dia && LStripChar(['Z'] + z, 'Z') == z
  {
    KeywordWord('T', tool);
    KeywordWord('P', pocket);
    KeywordWord('D', dia);
    KeywordWord('Z', z);
    SplitFour(['T'] + tool, ['P'] + pocket, ['D'] + dia, ['Z'] + z);
  }

  /** The words of a saved line spelled out. */
  lemma WordsSpelled(r: Row)
    ensures Data(r) == ['T'] + IntToString(r.tool) + " " + (['P'] + IntToString(r.pocket) + " "
                       + (['D'] + Strip(r.dia) + " " + (['Z'] + Strip(r.z))))
  {
    assert Word(r, 1) == ['T'] + IntToString(r.tool);
    assert Word(r, 2) == ['P'] + IntToString(r.pocket);
    assert Word(r, 3) == ['D'] + Strip(r.dia);
    assert Word(r, 4) == ['Z'] + Strip(r.z);
  }

  /** The data part of a saved line splits into its four words. */
  lemma WordsOfData(r: Row)
    requires Fixed4(r.dia).Some? && Fixed4(r.z).Some?
    ensures var words := Split(Data(r));
            && |words| == 4
            && words[0] == ['T'] + IntToString(r.tool) && words[1] == ['P'] + IntToString(r.pocket)
            && words[2] == ['D'] + Strip(r.dia) && words[3] == ['Z'] + Strip(r.z)
    ensures LStripChar(['T'] + IntToString(r.tool), 'T') == IntToString(r.tool)
    ensures LStripChar(['P'] + IntToString(r.pocket), 'P') == IntToString(r.pocket)
    ensures LStripChar(['D'] + Strip(r.dia), 'D') == Strip(r.dia)
    ensures LStripChar(['Z'] + Strip(r.z), 'Z') == Strip(r.z)
  {
    IntPlain(r.tool);
    IntPlain(r.pocket);
    LiteralPlain(Strip(r.dia));
    LiteralPlain(Strip(r.z));
    WordsSpelled(r);
    DataWords(IntToString(r.tool), IntToString(r.pocket), Strip(r.dia), Strip(r.z));
  }

  /** The fields of four words that start with T, P, D and Z, in that order, and whose values convert. */
  lemma FieldsOf(words: seq<string>, data: string, tool: int, pocket: int, dia: string, z: string)
    requires |words| == 4
    requires StartsWith(words[0], 'T') && StartsWith(words[1], 'P')
    requires StartsWith(words[2], 'D') && StartsWith(words[3], 'Z')
    requires PyInt(LStripChar(words[0], 'T')) == Some(tool)
    requires PyInt(LStripChar(words[1], 'P')) == Some(pocket)
    requires Fixed4(LStripChar(words[2], 'D')) == Some(dia)
    requires Fixed4(LStripChar(words[3], 'Z')) == Some(z)
    ensures IntField(words, 'T', data) == Converted(tool)
    ensures IntField(words, 'P', data) == Converted(pocket)
    ensures FloatField(words, 'D', data) == Converted(dia)
    ensures FloatField(words, 'Z', data) == Converted(z)
  {
    KeywordOrder(words);
    ReadInt(words, 0, 'T', data, tool);
    ReadInt(words, 1, 'P', data, pocket);
    ReadFloat(words, 2, 'D', data, dia);
    ReadFloat(words, 3, 'Z', data, z);
  }

  /** In four words starting with T, P, D and Z, no word starts with a later word's letter. */
  lemma KeywordOrder(words: seq<string>)
    requires |words| == 4
    requires StartsWith(words[0], 'T') && StartsWith(words[1], 'P')
    requires StartsWith(words[2], 'D') && StartsWith(words[3], 'Z')
    ensures forall j :: 0 <= j < 1 ==> !StartsWith(words[j], 'P')
    ensures forall j :: 0 <= j < 2 ==> !StartsWith(words[j], 'D')
    ensures forall j :: 0 <= j < 3 ==> !StartsWith(words[j], 'Z')
  {
  }

  /** The first word starting with `letter` holds an integer. */
  lemma ReadInt(words: seq<string>, k: nat, letter: char, data: string, n: int)
    requires k < |words| && StartsWith(words[k], letter)
    requires forall j :: 0 <= j < k ==> !StartsWith(words[j], letter)
    requires PyInt(LStripChar(words[k], letter)) == Some(n)
    ensures IntField(words, letter, data) == Converted(n)
  {
    FirstWithAt(words, letter, k);
  }

  /** The first word starting with `letter` holds a literal. */
  lemma ReadFloat(words: seq<string>, k: nat, letter: char, data: string, v: string)
    requires k < |words| && StartsWith(words[k], letter)
    requires forall j :: 0 <= j < k ==> !StartsWith(words[j], letter)
    requires Fixed4(LStripChar(words[k], letter)) == Some(v)
    ensures FloatField(words, letter, data) == Converted(v)
  {
    FirstWithAt(words, letter, k);
  }

  /** Every field of a saved row whose diameter and Z offset are literals reads back. */
  lemma FieldsRoundTrip(r: Row)
    requires Fixed4(r.dia).Some? && Fixed4(r.z).Some?
    ensures var words := Split(Data(r)); var data := Data(r);
            && IntField(words, 'T', data) == Converted(r.tool)
            && IntField(words, 'P', data) == Converted(r.pocket)
            && FloatField(words, 'D', data) == Converted(Fixed4(r.dia).value)
            && FloatField(words, 'Z', data) == Converted(Fixed4(r.z).value)
  {
    WordsOfData(r);
    IntRoundTrip(r.tool);
    IntRoundTrip(r.pocket);
    StripIdempotent(r.dia);
    StripIdempotent(r.z);
    FieldsOf(Split(Data(r)), Data(r), r.tool, r.pocket, Fixed4(r.dia).value, Fixed4(r.z).value);
  }

  /** Four plain values after their keyword letters, separated by single spaces: no `;`, and no whitespace at the end. */
  lemma DataChars(tool: string, pocket: string, dia: string, z: string)
    requires Plain(tool) && Plain(pocket) && Plain(dia) && Plain(z)
    ensures var data := ['T'] + tool + " " + (['P'] + pocket + " " + (['D'] + dia + " " + (['Z'] + z)));
            && ';' !in data + " " && '\n' !in data && data != [] && !IsSpace(data[|data| - 1])
  {
    var data := ['T'] + tool + " " + (['P'] + pocket + " " + (['D'] + dia + " " + (['Z'] + z)));
    assert data[|data| - 1] == z[|z| - 1];
  }

  /** The data part of a saved line holds no `;` and ends in a non-whitespace character. */
  lemma DataEnd(r: Row)
    requires Fixed4(r.dia).Some? && Fixed4(r.z).Some?
    ensures ';' !in Data(r) + " " && '\n' !in Data(r) && Data(r) != [] && !IsSpace(Data(r)[|Data(r)| - 1])
  {
    IntPlain(r.tool);
    IntPlain(r.pocket);
    LiteralPlain(Strip(r.dia));
    LiteralPlain(Strip(r.z));
    WordsSpelled(r);
    DataChars(IntToString(r.tool), IntToString(r.pocket), Strip(r.dia), Strip(r.z));
  }

  /** `ParseLine` unfolded: a line reads as the four fields of its data part, with the comment split off. A helper that only restates the definition. */
  lemma ParseLineFields(line: string)
    ensures var data := SplitComment(line).0;
            var words := Split(data);
            var tool, pocket := IntField(words, 'T', data), IntField(words, 'P', data);
            var dia, z := FloatField(words, 'D', data), FloatField(words, 'Z', data);
            ParseLine(line)
            == LineResult(Row(false, tool.Or(1), pocket.Or(1), dia.Or("0"), z.Or("0"), SplitComment(line).1, White),
                          tool.Errors() + pocket.Errors() + dia.Errors() + z.Errors())
  {
  }

  /** A line whose data part yields four converted fields reads as that row without errors. */
  lemma ParseConverted(line: string, data: string, comment: string, tool: int, pocket: int, dia: string, z: string)
    requires SplitComment(line) == (data, comment)
    requires IntField(Split(data), 'T', data) == Converted(tool)
    requires IntField(Split(data), 'P', data) == Converted(pocket)
    requires FloatField(Split(data), 'D', data) == Converted(dia)
    requires FloatField(Split(data), 'Z', data) == Converted(z)
    ensures ParseLine(line) == LineResult(Row(false, tool, pocket, dia, z, comment, White), [])
  {
  }

  /**
   * Loading the line saved for a row gives back its tool, pocket, diameter and
   * Z offset (the latter two in four-place form), an unselected white row, the
   * stripped comment followed by the space the writer put after it, and no error.
   */
  lemma FormatThenParse(r: Row)
    requires Fixed4(r.dia).Some? && Fixed4(r.z).Some?
    ensures ParseLine(FormatRow(r))
         == LineResult(Row(false, r.tool, r.pocket, Fixed4(r.dia).value, Fixed4(r.z).value,
                           Strip(r.comment) + " ", White), [])
  {
    var data, comment := Data(r), Strip(r.comment);
    SavedLineShape(r);
    DataEnd(r);
    SplitCommentAt(data + " ", comment + " \n");
    RStripOneSpace(data);
    RStripNewlineAfterSpace(comment);
    FieldsRoundTrip(r);
    ParseConverted(FormatRow(r), data, comment + " ", r.tool, r.pocket, Fixed4(r.dia).value, Fixed4(r.z).value);
  }

  /** A saved line depends only on the tool, the pocket and the stripped diameter, Z offset and comment. */
  lemma SameLine(a: Row, b: Row)
    requires a.tool == b.tool && a.pocket == b.pocket
    requires Strip(a.dia) == Strip(b.dia) && Strip(a.z) == Strip(b.z) && Strip(a.comment) == Strip(b.comment)
    ensures FormatRow(a) == FormatRow(b)
  {
    ColumnsWritten(a);
    ColumnsWritten(b);
    assert Word(a, 1) == Word(b, 1) && Word(a, 2) == Word(b, 2) && Word(a, 3) == Word(b, 3);
    assert Word(a, 4) == Word(b, 4) && Word(a, 5) == Word(b, 5);
  }

  /** A row in four-place form is saved as the same line after a load: load-then-save has it as a fixed point. */
  lemma SaveLoadFixedPoint(r: Row)
    requires IsFixed4(r.dia) && IsFixed4(r.z)
    ensures ParseLine(FormatRow(r)).errors == []
    ensures FormatRow(ParseLine(FormatRow(r)).row) == FormatRow(r)
  {
    Fixed4Canonical(r.dia);
    Fixed4Canonical(r.z);
    FormatThenParse(r);
    StripTrailingSpace(r.comment);
    SameLine(ParseLine(FormatRow(r)).row, r);
  }

  /**
   * Whatever a line holds, one load-save cycle brings it to four-place form:
   * from the second save on, the saved line no longer changes and loads without errors.
   */
  lemma StableAfterOneCycle(line: string)
    ensures var second := ParseLine(FormatRow(ParseLine(line).row)).row;
            && ParseLine(FormatRow(second)).errors == []
            && FormatRow(ParseLine(FormatRow(second)).row) == FormatRow(second)
  {
    var first := ParseLine(line).row;
    if first.dia == "0" { ZeroConverts(); } else { Fixed4Canonical(first.dia); }
    if first.z == "0" { ZeroConverts(); } else { Fixed4Canonical(first.z); }
    FormatThenParse(first);
    SaveLoadFixedPoint(ParseLine(FormatRow(first)).row);
  }

  // ---------------------------------------------------------------------------
  // Whole files

  /** Text written as lines that each end in their only newline is read back as those lines. */
  lemma {:induction false} LinesOfText(lines: seq<string>)
    requires forall i :: 0 <= i < |lines| ==> IsLine(lines[i])
    ensures FileLines(FileText(lines)) == lines
  {
    if lines != [] {
      var line, rest := lines[0], FileText(lines[1..]);
      var text := line + rest;
      assert text[..|line| - 1] == line[..|line| - 1];
      FindAt(text, '\n', |line| - 1);
      assert text[..|line|] == line && text[|line|..] == rest;
      LinesOfText(lines[1..]);
    }
  }

  /** `find` returns the first index holding the character. */
  lemma {:induction false} FindAt(s: string, c: char, j: nat)
    requires j < |s| && s[j] == c && c !in s[..j]
    ensures Find(s, c) == j
  {
    if j > 0 {
      assert s[..j][0] == s[0];
      assert s[1..][..j - 1] == s[..j][1..];
      FindAt(s[1..], c, j - 1);
    }
  }

  /**
   * A row with no newline in its diameter, its Z offset or its comment (the
   * default `0` offsets included) is saved as one line, which `readlines()`
   * reads back whole.
   */
  lemma SavedLineIsLine(r: Row)
    requires '\n' !in r.dia && '\n' !in r.z && '\n' !in r.comment
    ensures IsLine(FormatRow(r))
  {
    SavedLineShape(r);
    DataNoNewline(r);
    StripWithin(r.comment);
    LineOf(Data(r), Strip(r.comment));
  }

  /** The data part of a saved line has a newline only where a diameter or Z offset brings one. */
  lemma DataNoNewline(r: Row)
    requires '\n' !in r.dia && '\n' !in r.z
    ensures '\n' !in Data(r)
  {
    WordsSpelled(r);
    StripWithin(r.dia);
    StripWithin(r.z);
    var tool, pocket := IntToString(r.tool), IntToString(r.pocket);
    assert '\n' !in tool && '\n' !in pocket;
  }

  /** The layout of a saved line, with no newline in its data or its comment, is one line. */
  lemma LineOf(data: string, comment: string)
    requires '\n' !in data && '\n' !in comment
    ensures IsLine((data + " ") + ";" + (comment + " \n"))
  {
    var line := (data + " ") + ";" + (comment + " \n");
    assert line[..|line| - 1] == data + " ;" + comment + " ";
  }

  /** What `strip()` keeps is a piece of the text. */
  lemma StripWithin(s: string)
    ensures forall c :: c in Strip(s) ==> c in s
  {
    RStripPrefix(s);
    LStripSuffix(RStrip(s));
  }

  /**
   * A comment with a newline inside it is saved as a line with a newline
   * before its end, which `readlines()` reads back as more than one line.
   */
  lemma NewlineCommentSplits(r: Row)
    requires '\n' in Strip(r.comment)
    ensures !IsLine(FormatRow(r))
    ensures |FileLines(FormatRow(r))| >= 2
  {
    var comment := Strip(r.comment);
    SavedLineShape(r);
    var line := FormatRow(r);
    var head := (Data(r) + " ") + ";";
    assert line[..|line| - 1] == head + (comment + " ");
    var k :| 0 <= k < |comment| && comment[k] == '\n';
    assert line[..|line| - 1][|head| + k] == '\n';
    NewlineInside(line, |head| + k);
  }

  /** A text with a newline before its last character is read as more than one line. */
  lemma NewlineInside(text: string, j: nat)
    requires j < |text| - 1 && text[j] == '\n'
    ensures |FileLines(text)| >= 2
  {
    FindBefore(text, '\n', j);
    var i := Find(text, '\n');
    var rest := text[i + 1..];
    SomeLine(rest);
    assert text != [] && i != -1;
    assert FileLines(text)[1..] == FileLines(rest);
  }

  /** A non-empty text is read as at least one line. */
  lemma SomeLine(text: string)
    requires text != []
    ensures |FileLines(text)| >= 1
  {
  }

  /** `find` stops at or before any index holding the character. */
  lemma {:induction false} FindBefore(s: string, c: char, j: nat)
    requires j < |s| && s[j] == c
    ensures 0 <= Find(s, c) <= j
  {
    if j > 0 && s[0] != c {
      FindBefore(s[1..], c, j - 1);
    }
  }

  /** Gathering keeps one row per read line, in order. */
  lemma {:induction false} GatherRows(results: seq<LineResult>)
    ensures |Gather(results).rows| == |results|
    ensures forall i :: 0 <= i < |results| ==> Gather(results).rows[i] == results[i].row
  {
    if results != [] {
      GatherRows(results[..|results| - 1]);
    }
  }

  /** Gathering logs nothing exactly when no read line has an error. */
  lemma {:induction false} GatherLogEmpty(results: seq<LineResult>)
    ensures Gather(results).log == [] <==> forall i :: 0 <= i < |results| ==> results[i].errors == []
  {
    if results != [] {
      var init := results[..|results| - 1];
      GatherLogEmpty(init);
      assert forall i :: 0 <= i < |init| ==> init[i] == results[i];
    }
  }

  /** Loading one more line appends its row to the table and its errors to the log. */
  lemma LoadAppendLine(lines: seq<string>, line: string)
    ensures Load(lines + [line])
         == Loaded(Load(lines).rows + [ParseLine(line).row], Load(lines).log + ParseLine(line).errors)
  {
    var all := ReadLines(lines + [line]);
    assert all[..|lines|] == ReadLines(lines);
    assert all[|lines|] == ParseLine(line);
  }

  /** Gathering one read line more appends its row and its errors. */
  lemma GatherNext(results: seq<LineResult>, i: nat)
    requires i < |results|
    ensures Gather(results[..i + 1])
         == Loaded(Gather(results[..i]).rows + [results[i].row], Gather(results[..i]).log + results[i].errors)
  {
    assert results[..i + 1][..i] == results[..i];
  }

  /** Loading yields one row per line, each the row its own line reads as. */
  lemma LoadRows(lines: seq<string>)
    ensures |Load(lines).rows| == |lines|
    ensures forall i :: 0 <= i < |lines| ==> Load(lines).rows[i] == ParseLine(lines[i]).row
  {
    GatherRows(ReadLines(lines));
  }

  /** Loading logs nothing exactly when no line has an unconvertible value. */
  lemma LoadLogEmpty(lines: seq<string>)
    ensures Load(lines).log == [] <==> forall i :: 0 <= i < |lines| ==> ParseLine(lines[i]).errors == []
  {
    var results := ReadLines(lines);
    GatherLogEmpty(results);
    if forall i :: 0 <= i < |lines| ==> ParseLine(lines[i]).errors == [] {
      forall i | 0 <= i < |results| ensures results[i].errors == [] {
        assert results[i] == ParseLine(lines[i]);
      }
    } else {
      var i :| 0 <= i < |lines| && ParseLine(lines[i]).errors != [];
      assert results[i].errors != [];
    }
  }

  /** Log entries that are all conversion errors of a table line, sent to `log.error`. */
  predicate ConversionErrors(errors: seq<LogEntry>) {
    forall k :: 0 <= k < |errors| ==> errors[k].CantConvert? && errors[k].Level() == Error
  }

  lemma ConversionErrorsAppend(a: seq<LogEntry>, b: seq<LogEntry>)
    requires ConversionErrors(a) && ConversionErrors(b)
    ensures ConversionErrors(a + b)
  {
    forall k | 0 <= k < |a + b| ensures (a + b)[k].CantConvert? && (a + b)[k].Level() == Error {
      if k < |a| { assert (a + b)[k] == a[k]; } else { assert (a + b)[k] == b[k - |a|]; }
    }
  }

  /** A column's error, if any, is a conversion error. */
  lemma FieldConversionError<T>(f: Field<T>)
    requires f.Unconvertible? ==> f.error.CantConvert?
    ensures ConversionErrors(f.Errors())
  {
  }

  /** Reading a line logs only conversion errors, each to `log.error`. */
  lemma LineConversionErrors(line: string)
    ensures ConversionErrors(ParseLine(line).errors)
  {
    var (data, comment) := SplitComment(line);
    var words := Split(data);
    var tool, pocket := IntField(words, 'T', data), IntField(words, 'P', data);
    var dia, z := FloatField(words, 'D', data), FloatField(words, 'Z', data);
    FieldConversionError(tool);
    FieldConversionError(pocket);
    FieldConversionError(dia);
    FieldConversionError(z);
    ConversionErrorsAppend(tool.Errors(), pocket.Errors());
    ConversionErrorsAppend(tool.Errors() + pocket.Errors(), dia.Errors());
    ConversionErrorsAppend(tool.Errors() + pocket.Errors() + dia.Errors(), z.Errors());
  }

  lemma {:induction false} GatherConversionErrors(results: seq<LineResult>)
    requires forall i :: 0 <= i < |results| ==> ConversionErrors(results[i].errors)
    ensures ConversionErrors(Gather(results).log)
  {
    if results != [] {
      var init := results[..|results| - 1];
      GatherConversionErrors(init);
      ConversionErrorsAppend(Gather(init).log, results[|results| - 1].errors);
    }
  }

  /**
   * Loading a file logs nothing but conversion errors: every message it sends
   * goes to `log.error` and reports a value that did not convert.
   */
  lemma LoadConversionErrors(lines: seq<string>)
    ensures ConversionErrors(Load(lines).log)
  {
    var results := ReadLines(lines);
    forall i | 0 <= i < |results| ensures ConversionErrors(results[i].errors) {
      LineConversionErrors(lines[i]);
    }
    GatherConversionErrors(results);
  }

  /** The file saved for rows with no newline in their offsets and comments reads back as the lines written. */
  lemma SavedFileLines(rows: seq<Row>)
    requires forall i :: 0 <= i < |rows| ==> '\n' !in rows[i].dia && '\n' !in rows[i].z && '\n' !in rows[i].comment
    ensures FileLines(FileText(Save(rows))) == Save(rows)
  {
    var lines := Save(rows);
    forall i | 0 <= i < |lines| ensures IsLine(lines[i]) {
      SavedLineIsLine(rows[i]);
    }
    LinesOfText(lines);
  }

  /**
   * Saving a table whose diameters and Z offsets are in four-place form and
   * loading the file again logs nothing, gives every row back unselected and
   * white with its comment stripped and followed by a space, and saving that
   * table writes the same file.
   */
  lemma SaveLoadTable(rows: seq<Row>)
    requires forall i :: 0 <= i < |rows| ==> IsFixed4(rows[i].dia) && IsFixed4(rows[i].z)
    requires forall i :: 0 <= i < |rows| ==> '\n' !in rows[i].comment
    ensures FileLines(FileText(Save(rows))) == Save(rows)
    ensures Load(Save(rows)).log == []
    ensures |Load(Save(rows)).rows| == |rows|
    ensures forall i :: 0 <= i < |rows| ==>
              Load(Save(rows)).rows[i]
              == rows[i].(selected := false, comment := Strip(rows[i].comment) + " ", colour := White)
    ensures Save(Load(Save(rows)).rows) == Save(rows)
  {
    var lines := Save(rows);
    LoadRows(lines);
    forall i | 0 <= i < |rows|
      ensures ParseLine(lines[i]).errors == []
      ensures ParseLine(lines[i]).row
              == rows[i].(selected := false, comment := Strip(rows[i].comment) + " ", colour := White)
      ensures FormatRow(ParseLine(lines[i]).row) == lines[i]
      ensures '\n' !in rows[i].dia && '\n' !in rows[i].z
    {
      Fixed4Canonical(rows[i].dia);
      Fixed4Canonical(rows[i].z);
      FormatThenParse(rows[i]);
      SaveLoadFixedPoint(rows[i]);
      FixedNoSpace(rows[i].dia);
      FixedNoSpace(rows[i].z);
    }
    SavedFileLines(rows);
    LoadLogEmpty(lines);
  }

  /** Whatever a file holds, after one load and save the file is stable: loading it logs nothing and saving it again writes it unchanged. */
  lemma TableStableAfterOneCycle(lines: seq<string>)
    ensures var saved := Save(Load(Save(Load(lines).rows)).rows);
            && Load(saved).log == []
            && Save(Load(saved).rows) == saved
  {
    var first := Load(lines).rows;
    var second := Load(Save(first)).rows;
    LoadRows(lines);
    LoadRows(Save(first));
    var saved := Save(second);
    LoadRows(saved);
    forall i | 0 <= i < |saved|
      ensures ParseLine(saved[i]).errors == []
      ensures FormatRow(ParseLine(saved[i]).row) == saved[i]
    {
      StableAfterOneCycle(lines[i]);
    }
    LoadLogEmpty(saved);
  }
}
