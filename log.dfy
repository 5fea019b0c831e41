/**
 * The messages the tool table sends to the application log. Each is kept as a
 * value; `Message` renders the text the source formats for it.
 */
module Log {
  import opened Ints

  /** The logger method a message goes to. */
  datatype Level = Error | Warning

  /** The type a table column is read as. */
  datatype NumberKind = Integer | Float

  datatype LogEntry =
    | CantConvert(token: string, kind: NumberKind, data: string)  // a keyword's value in a table line
    | InvalidToolNumber(text: string)                              // an edited tool number
    | InvalidPocket(text: string)                                  // an edited pocket number
    | MissingTable                                                 // no tool table file
    | ToolNotFound(tool: int)                                      // a tool not in the table
    | NotOneSelected(count: nat)                                   // a tool change without exactly one selection
  {
    function Level(): Level {
      if MissingTable? || ToolNotFound? then Warning else Error
    }

    function Message(): string {
      match this
      case CantConvert(token, kind, data) =>
        "Error reading tool table, can't convert \"" + token + "\" to "
        + (if kind == Integer then "integer" else "float") + " in " + data
      case InvalidToolNumber(text) => "\"" + text + "\" is not a valid tool number"
      case InvalidPocket(text) => "\"" + text + "\" is not a valid tool pocket"
      case MissingTable => "Tool table does not exist"
      case ToolNotFound(tool) => "Did not find tool " + IntToString(tool) + " in the tool table"
      case NotOneSelected(count) => IntToString(count) + " tools selected, you must select exactly one"
    }
  }

  /** `part` occurs in `text` as a contiguous piece. */
  predicate Contains(text: string, part: string)
    decreases |text|
  {
    (|part| <= |text| && text[..|part|] == part) || (text != [] && Contains(text[1..], part))
  }

  /** What a message is about: the quoted value or text, the number, or nothing for the missing table. */
  function Subject(e: LogEntry): string {
    match e
    case CantConvert(token, _, _) => "\"" + token + "\""
    case InvalidToolNumber(text) => "\"" + text + "\""
    case InvalidPocket(text) => "\"" + text + "\""
    case MissingTable => ""
    case ToolNotFound(tool) => IntToString(tool)
    case NotOneSelected(count) => IntToString(count)
  }

  /** Every message names its subject; `ConversionMessage` says more about conversion errors. */
  lemma MessageNamesSubject(e: LogEntry)
    ensures Contains(e.Message(), Subject(e))
  {
    match e
    case CantConvert(token, kind, data) => ConversionMessage(token, kind, data);
    case InvalidToolNumber(text) => ToolNumberMessage(text);
    case InvalidPocket(text) => PocketMessage(text);
    case MissingTable => Leading("", e.Message());
    case ToolNotFound(_) => NumberMessage(e);
    case NotOneSelected(_) => NumberMessage(e);
  }

  /** An invalid tool number is reported by quoting the text typed. */
  lemma ToolNumberMessage(text: string)
    ensures Contains(InvalidToolNumber(text).Message(), Subject(InvalidToolNumber(text)))
  {
    var quoted := "\"" + text + "\"";
    Leading(quoted, " is not a valid tool number");
  }

  /** An invalid pocket is reported by quoting the text typed. */
  lemma PocketMessage(text: string)
    ensures Contains(InvalidPocket(text).Message(), Subject(InvalidPocket(text)))
  {
    var quoted := "\"" + text + "\"";
    Leading(quoted, " is not a valid tool pocket");
  }

  lemma Leading(part: string, after: string)
    ensures Contains(part + after, part)
  {
    assert (part + after)[..|part|] == part;
  }

  /** A missing tool or a wrong selection count is reported with the number written out. */
  lemma NumberMessage(e: LogEntry)
    requires e.ToolNotFound? || e.NotOneSelected?
    ensures Contains(e.Message(), Subject(e))
  {
    if e.ToolNotFound? {
      assert e.Message() == "Did not find tool " + Subject(e) + " in the tool table";
      Within("Did not find tool ", Subject(e), " in the tool table");
    } else {
      assert e.Message() == Subject(e) + " tools selected, you must select exactly one";
      Leading(Subject(e), " tools selected, you must select exactly one");
    }
  }

  /** A conversion error quotes the token, names the expected type and ends with the data part. */
  lemma ConversionMessage(token: string, kind: NumberKind, data: string)
    ensures var e := CantConvert(token, kind, data);
            var m := e.Message();
            && Contains(m, Subject(e))
            && |data| <= |m| && m[|m| - |data|..] == data
            && Contains(m, if kind == Integer then "integer" else "float")
  {
    var e := CantConvert(token, kind, data);
    var name := if kind == Integer then "integer" else "float";
    var head := "Error reading tool table, can't convert ";
    assert e.Message() == head + Subject(e) + " to " + name + " in " + data;
    Pieces(head, Subject(e), " to ", name, " in ", data);
  }

  /** The pieces of a text built from six parts: the second and the fourth occur in it, and it ends with the sixth. */
  lemma Pieces(a: string, b: string, c: string, d: string, f: string, g: string)
    ensures var m := a + b + c + d + f + g;
            Contains(m, b) && Contains(m, d) && |g| <= |m| && m[|m| - |g|..] == g
  {
    var m := a + b + c + d + f + g;
    assert m == a + b + (c + d + f + g);
    Within(a, b, c + d + f + g);
    assert m == (a + b + c) + d + (f + g);
    Within(a + b + c, d, f + g);
  }

  lemma {:induction false} Within(before: string, part: string, after: string)
    ensures Contains(before + part + after, part)
    decreases |before|
  {
    var text := before + part + after;
    if before == [] {
      assert text[..|part|] == part;
    } else {
      assert text[1..] == before[1..] + part + after;
      Within(before[1..], part, after);
    }
  }
}
