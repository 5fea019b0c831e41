/**
 * The tool-table widget: the rows of its list store, the application log and
 * the row of the tool in the spindle, with the handlers that change them.
 */
module Widget {
  import opened Wrappers
  import opened Text
  import opened Ints
  import opened Decimals
  import opened Log
  import opened Codec
  import opened RowStore
  import RoundTrip

  /** The first word starting with `letter`, its leading letters stripped, read by `int()`. */
  method ScanInt(words: seq<string>, letter: char, data: string) returns (f: Field<int>)
    ensures f == IntField(words, letter, data)
  {
    f := Absent;
    var j := 0;
    while j < |words|
      invariant 0 <= j <= |words|
      invariant forall k :: 0 <= k < j ==> !StartsWith(words[k], letter)
    {
      if StartsWith(words[j], letter) {
        RoundTrip.FirstWithAt(words, letter, j);
        var token := LStripChar(words[j], letter);
        match PyInt(token) {
          case Some(v) => f := Converted(v);
          case None => f := Unconvertible(CantConvert(token, Integer, data));
        }
        break;
      }
      j := j + 1;
    }
  }

  /** The first word starting with `letter`, its leading letters stripped, read by `"%.4f" % float()`. */
  method ScanFloat(words: seq<string>, letter: char, data: string) returns (f: Field<string>)
    ensures f == FloatField(words, letter, data)
  {
    f := Absent;
    var j := 0;
    while j < |words|
      invariant 0 <= j <= |words|
      invariant forall k :: 0 <= k < j ==> !StartsWith(words[k], letter)
    {
      if StartsWith(words[j], letter) {
        RoundTrip.FirstWithAt(words, letter, j);
        var token := LStripChar(words[j], letter);
        match Fixed4(token) {
          case Some(v) => f := Converted(v);
          case None => f := Unconvertible(CantConvert(token, Float, data));
        }
        break;
      }
      j := j + 1;
    }
  }

  /** The body of the loop of `load_tool_table`: one line becomes a row. */
  method ReadLine(line: string) returns (row: Row, errors: seq<LogEntry>)
    ensures row == ParseLine(line).row && errors == ParseLine(line).errors
  {
    var comment := "";
    var data := line;
    var index := Find(line, ';');
    if index == -1 {
      data := RStripChar(line, '\n');
    } else {
      comment := RStripChar(line[index + 1..], '\n');
      data := RStrip(line[..index]);
    }
    assert (data, comment) == SplitComment(line);
    RoundTrip.ParseLineFields(line);
    var tool, pocket, dia, z;
    tool, pocket, dia, z, errors := ReadFields(Split(data), data);
    row := Row(false, tool, pocket, dia, z, comment, White);
  }

  /** The keyword scan of `load_tool_table`: the columns in order, each from the first word starting with its letter. */
  method ReadFields(words: seq<string>, data: string)
    returns (tool: int, pocket: int, dia: string, z: string, errors: seq<LogEntry>)
    ensures tool == IntField(words, 'T', data).Or(1) && pocket == IntField(words, 'P', data).Or(1)
    ensures dia == FloatField(words, 'D', data).Or("0") && z == FloatField(words, 'Z', data).Or("0")
    ensures errors == IntField(words, 'T', data).Errors() + IntField(words, 'P', data).Errors()
                      + FloatField(words, 'D', data).Errors() + FloatField(words, 'Z', data).Errors()
  {
    tool, pocket, dia, z := 1, 1, "0", "0";
    errors := [];
    var offset := 0;
    while offset < |Keywords|
      invariant 0 <= offset <= |Keywords|
      invariant tool == (if offset > 1 then IntField(words, 'T', data).Or(1) else 1)
      invariant pocket == (if offset > 2 then IntField(words, 'P', data).Or(1) else 1)
      invariant dia == (if offset > 3 then FloatField(words, 'D', data).Or("0") else "0")
      invariant z == (if offset > 4 then FloatField(words, 'Z', data).Or("0") else "0")
      invariant errors == ErrorsUpTo(words, data, offset)
    {
      var letter := Keywords[offset];
      if offset == 0 || letter == ';' {
        assert errors + [] == errors;
      } else if offset == 1 {
        tool, errors := ReadInt(words, letter, data, tool, errors);
      } else if offset == 2 {
        pocket, errors := ReadInt(words, letter, data, pocket, errors);
      } else if offset == 3 {
        dia, errors := ReadFloat(words, letter, data, dia, errors);
      } else {
        z, errors := ReadFloat(words, letter, data, z, errors);
      }
      offset := offset + 1;
    }
    ErrorsOfAllColumns(words, data);
  }

  /** One integer column: the value converted from the first word with `letter`, or an error logged and `current` kept. */
  method ReadInt(words: seq<string>, letter: char, data: string, current: int, errors: seq<LogEntry>)
    returns (value: int, logged: seq<LogEntry>)
    ensures value == IntField(words, letter, data).Or(current)
    ensures logged == errors + IntField(words, letter, data).Errors()
  {
    var f := ScanInt(words, letter, data);
    value, logged := current, errors;
    if f.Converted? {
      value := f.value;
    } else if f.Unconvertible? {
      logged := errors + [f.error];
    }
    assert !f.Unconvertible? ==> errors + [] == errors;
  }

  /** One four-place column: the text converted from the first word with `letter`, or an error logged and `current` kept. */
  method ReadFloat(words: seq<string>, letter: char, data: string, current: string, errors: seq<LogEntry>)
    returns (value: string, logged: seq<LogEntry>)
    ensures value == FloatField(words, letter, data).Or(current)
    ensures logged == errors + FloatField(words, letter, data).Errors()
  {
    var f := ScanFloat(words, letter, data);
    value, logged := current, errors;
    if f.Converted? {
      value := f.value;
    } else if f.Unconvertible? {
      logged := errors + [f.error];
    }
    assert !f.Unconvertible? ==> errors + [] == errors;
  }

  /** The conversion errors the keyword at `offset` logs: none for the checkbox and the comment. */
  function ColumnErrors(words: seq<string>, data: string, offset: nat): seq<LogEntry>
    requires offset < |Keywords|
  {
    if offset == 1 || offset == 2 then IntField(words, Keywords[offset], data).Errors()
    else if offset == 3 || offset == 4 then FloatField(words, Keywords[offset], data).Errors()
    else []
  }

  /** The errors logged by the keywords before `offset`, in order. */
  function ErrorsUpTo(words: seq<string>, data: string, offset: nat): seq<LogEntry>
    requires offset <= |Keywords|
  {
    if offset == 0 then [] else ErrorsUpTo(words, data, offset - 1) + ColumnErrors(words, data, offset - 1)
  }

  /** After all six keywords: the errors of the tool, pocket, diameter and Z columns, in that order. */
  lemma ErrorsOfAllColumns(words: seq<string>, data: string)
    ensures ErrorsUpTo(words, data, 6)
            == ColumnErrors(words, data, 1) + ColumnErrors(words, data, 2)
               + ColumnErrors(words, data, 3) + ColumnErrors(words, data, 4)
  {
    var t, p := ColumnErrors(words, data, 1), ColumnErrors(words, data, 2);
    var d, z := ColumnErrors(words, data, 3), ColumnErrors(words, data, 4);
    assert ErrorsUpTo(words, data, 1) == [] + ColumnErrors(words, data, 0) == [];
    assert ErrorsUpTo(words, data, 2) == [] + t == t;
    assert ErrorsUpTo(words, data, 3) == t + p;
    assert ErrorsUpTo(words, data, 4) == t + p + d;
    assert ErrorsUpTo(words, data, 5) == t + p + d + z;
    assert ErrorsUpTo(words, data, 6) == ErrorsUpTo(words, data, 5) + [];
  }

  /** The body of the loop of `save_tool_table`: the columns of a row appended to a line one by one. */
  method WriteLine(r: Row) returns (line: string)
    ensures line == FormatRow(r)
  {
    line := "";
    var num := 0;
    while num < 7
      invariant 0 <= num <= 7
      invariant line == Columns(r, num)
    {
      if num == 0 || num == 6 {
      } else if num == 1 {
        line := line + ([Keywords[num]] + IntToString(r.tool) + " ");
      } else if num == 2 {
        line := line + ([Keywords[num]] + IntToString(r.pocket) + " ");
      } else if num == 3 {
        line := line + ([Keywords[num]] + Strip(r.dia) + " ");
      } else if num == 4 {
        line := line + ([Keywords[num]] + Strip(r.z) + " ");
      } else {
        line := line + ([Keywords[num]] + Strip(r.comment) + " ");
      }
      num := num + 1;
    }
    line := line + "\n";
  }

  /** The MDI command that changes to a tool and applies its length offset. */
  function ToolChange(tool: int): string {
    "M6 T" + IntToString(tool) + " G43"
  }

  /**
   * The widget's state: the rows of its list store, the messages it has sent
   * to the application log, and the row of the tool in the spindle
   * (`current_tool_data`), kept as an index into the rows that follows its
   * row when rows above it are deleted and is None once that row is gone.
   */
  class ToolTable {
    var rows: seq<Row>
    var log: seq<LogEntry>
    var current: Option<nat>

    constructor()
      ensures rows == [] && log == [] && current == None
    {
      rows, log, current := [], [], None;
    }

    /**
     * `load_tool_table`: `file` is the lines of the tool table file, or None
     * when it does not exist. A missing file logs a warning and changes no
     * row; otherwise the store is cleared and every line becomes a row.
     */
    method LoadToolTable(file: Option<seq<string>>)
      modifies this
      ensures file.None? ==> rows == old(rows) && log == old(log) + [MissingTable]
      ensures file.Some? ==> rows == Load(file.value).rows && log == old(log) + Load(file.value).log
      ensures current == if file.Some? then None else old(current)
    {
      if file.None? {
        log := log + [MissingTable];
        return;
      }
      var lines := file.value;
      ghost var results := ReadLines(lines);
      rows, current := [], None;
      var i := 0;
      while i < |lines|
        invariant 0 <= i <= |lines|
        invariant rows == Gather(results[..i]).rows && log == old(log) + Gather(results[..i]).log
        invariant current == None
      {
        var row, errors := ReadLine(lines[i]);
        assert results[i] == LineResult(row, errors);
        RoundTrip.GatherNext(results, i);
        AppendAssoc(old(log), Gather(results[..i]).log, errors);
        log := log + errors;
        AddTool(row);
        i := i + 1;
      }
      assert results[..i] == results;
    }

    /** `save_tool_table`: the lines written to the file, one per row. */
    method SaveToolTable() returns (lines: seq<string>)
      ensures lines == Save(rows)
    {
      lines := [];
      var i := 0;
      while i < |rows|
        invariant 0 <= i <= |rows|
        invariant |lines| == i
        invariant forall k :: 0 <= k < i ==> lines[k] == FormatRow(rows[k])
      {
        var line := WriteLine(rows[i]);
        lines := lines + [line];
        i := i + 1;
      }
    }

    /** `add_tool`: a row appended to the store. */
    method AddTool(row: Row)
      modifies this
      ensures rows == old(rows) + [row] && log == old(log) && current == old(current)
    {
      rows := rows + [row];
    }

    /** `on_add_tool_clicked`: a new row numbered one past the row count. */
    method AddNewTool()
      modifies this
      ensures rows == old(rows) + [NewToolRow(|old(rows)|)] && log == old(log) && current == old(current)
    {
      var num := |rows| + 1;
      AddTool(Row(false, num, num, "0.0000", "0.0000", "New Tool", White));
    }

    /** `get_selected_tools`: the tool numbers of the checked rows. */
    method GetSelectedTools() returns (tools: seq<int>)
      ensures tools == SelectedTools(rows)
    {
      tools := [];
      var i := 0;
      while i < |rows|
        invariant 0 <= i <= |rows|
        invariant tools == SelectedTools(rows[..i])
      {
        assert rows[..i + 1][..i] == rows[..i];
        if rows[i].selected {
          tools := tools + [rows[i].tool];
        }
        i := i + 1;
      }
      assert rows[..i] == rows;
    }

    /** The first loop of `on_delete_selected_clicked`: the indices of the checked rows, top to bottom. */
    method SelectedRows() returns (indices: seq<nat>)
      ensures indices == SelectedIndices(rows)
    {
      indices := [];
      var i := 0;
      while i < |rows|
        invariant 0 <= i <= |rows|
        invariant indices == SelectedIndices(rows[..i])
      {
        assert rows[..i + 1][..i] == rows[..i];
        if rows[i].selected {
          indices := indices + [i];
        }
        i := i + 1;
      }
      assert rows[..i] == rows;
    }

    /**
     * `on_delete_selected_clicked`: the checked rows are removed, from the last
     * one back; the current tool's row moves up with the rows removed above it,
     * or is gone when it was removed.
     */
    method DeleteSelected()
      modifies this
      ensures rows == Unselected(old(rows)) && log == old(log)
      ensures current == FollowDelete(old(rows), old(current))
    {
      ghost var original := rows;
      var moved := FollowDelete(rows, current);
      var indices := SelectedRows();
      var k := |indices|;
      ghost var cut := |rows|;
      assert rows[cut..] == [];
      while k > 0
        invariant 0 <= k <= |indices| && indices == SelectedIndices(original)
        invariant cut == (if k == |indices| then |original| else indices[k])
        invariant rows == original[..cut] + Unselected(original[cut..])
        invariant log == old(log) && current == old(current)
      {
        var r := indices[k - 1];
        DeleteStep(original, indices, k, cut);
        rows := rows[..r] + rows[r + 1..];
        cut := r;
        k := k - 1;
      }
      DeleteDone(original, indices, cut);
      current := moved;
    }

    /** `on_tool_num_edited`: a number `int()` accepts becomes the row's tool and pocket; anything else is logged. */
    method EditToolNumber(path: nat, text: string)
      requires path < |rows|
      modifies this
      ensures PyInt(text).Some? ==>
                rows == old(rows)[path := old(rows)[path].(tool := PyInt(text).value, pocket := PyInt(text).value)]
                && log == old(log)
      ensures PyInt(text).None? ==> rows == old(rows) && log == old(log) + [InvalidToolNumber(text)]
      ensures current == old(current)
    {
      match PyInt(text) {
        case Some(n) =>
          rows := rows[path := rows[path].(tool := n)];
          rows := rows[path := rows[path].(pocket := n)];
        case None =>
          log := log + [InvalidToolNumber(text)];
      }
    }

    /** `on_tool_pocket_edited`: a number `int()` accepts becomes the row's pocket; anything else is logged. */
    method EditPocket(path: nat, text: string)
      requires path < |rows|
      modifies this
      ensures PyInt(text).Some? ==>
                rows == old(rows)[path := old(rows)[path].(pocket := PyInt(text).value)] && log == old(log)
      ensures PyInt(text).None? ==> rows == old(rows) && log == old(log) + [InvalidPocket(text)]
      ensures current == old(current)
    {
      match PyInt(text) {
        case Some(n) =>
          rows := rows[path := rows[path].(pocket := n)];
        case None =>
          log := log + [InvalidPocket(text)];
      }
    }

    /** `on_tool_remark_edited`: the row's comment replaced as typed. */
    method EditRemark(path: nat, text: string)
      requires path < |rows|
      modifies this
      ensures rows == old(rows)[path := old(rows)[path].(comment := text)]
      ensures log == old(log) && current == old(current)
    {
      rows := rows[path := rows[path].(comment := text)];
    }

    /** `on_select_toggled`: the row's check box flipped. */
    method ToggleSelect(path: nat)
      requires path < |rows|
      modifies this
      ensures rows == old(rows)[path := old(rows)[path].(selected := !old(rows)[path].selected)]
      ensures log == old(log) && current == old(current)
    {
      rows := rows[path := rows[path].(selected := !rows[path].selected)];
    }

    /**
     * `highlight_tool`: every check box cleared, the rows holding the tool
     * gray and the rest white; the last of them becomes the current tool.
     */
    method HighlightTool(tool: int)
      modifies this
      ensures rows == Highlighted(old(rows), tool)
      ensures current == (if LastIndexOf(old(rows), tool).Some? then LastIndexOf(old(rows), tool) else old(current))
      ensures log == old(log)
    {
      ghost var original := rows;
      var i := 0;
      while i < |rows|
        invariant 0 <= i <= |rows| && |rows| == |original|
        invariant forall k :: 0 <= k < i ==> rows[k] == Highlighted(original, tool)[k]
        invariant forall k :: i <= k < |rows| ==> rows[k] == original[k]
        invariant current == (if LastIndexOf(original[..i], tool).Some? then LastIndexOf(original[..i], tool) else old(current))
        invariant log == old(log)
      {
        assert original[..i + 1][..i] == original[..i];
        rows := rows[i := rows[i].(selected := false)];
        rows := rows[i := rows[i].(colour := White)];
        if rows[i].tool == tool {
          current := Some(i);
          rows := rows[i := rows[i].(colour := Gray)];
        }
        i := i + 1;
      }
      assert original[..i] == original;
      assert rows == Highlighted(original, tool);
    }

    /** `set_selected_tool`: the first row holding the tool gets its check box set, or a warning is logged. */
    method SetSelectedTool(tool: int)
      modifies this
      ensures FirstIndexOf(old(rows), tool).Some? ==>
                var i := FirstIndexOf(old(rows), tool).value;
                rows == old(rows)[i := old(rows)[i].(selected := true)] && log == old(log)
      ensures FirstIndexOf(old(rows), tool).None? ==> rows == old(rows) && log == old(log) + [ToolNotFound(tool)]
      ensures current == old(current)
    {
      var found := false;
      var row := 0;
      while row < |rows|
        invariant 0 <= row <= |rows|
        invariant forall k :: 0 <= k < row ==> rows[k].tool != tool
        invariant !found
      {
        if rows[row].tool == tool {
          found := true;
          break;
        }
        row := row + 1;
      }
      if found {
        FirstIndexAt(rows, tool, row);
        rows := rows[row := rows[row].(selected := true)];
      } else {
        log := log + [ToolNotFound(tool)];
      }
    }

    /**
     * `on_change_to_selected_tool_clicked`: with exactly one tool checked,
     * the tool-change command for it; otherwise the count is logged.
     */
    method ChangeToSelectedTool() returns (command: Option<string>)
      modifies this
      ensures |SelectedTools(old(rows))| == 1 ==>
                command == Some(ToolChange(SelectedTools(old(rows))[0])) && log == old(log)
      ensures |SelectedTools(old(rows))| != 1 ==>
                command == None && log == old(log) + [NotOneSelected(|SelectedTools(old(rows))|)]
      ensures rows == old(rows) && current == old(current)
    {
      var selected := GetSelectedTools();
      if |selected| == 1 {
        command := Some(ToolChange(selected[0]));
      } else {
        command := None;
        log := log + [NotOneSelected(|selected|)];
      }
    }
  }
}
