# ToolTable: a verified model of hazzy's tool-table widget

The hazzy tool-table widget shows a LinuxCNC tool table as a list of rows. Each
row has a check box, a tool number, a pocket, a diameter, a Z offset, a comment
and a colour. The widget reads the table from a text file, one tool per line in
the form `T<tool> P<pocket> D<diameter> Z<offset> ;<comment>`, and writes it
back in the same form. Its handlers add, delete, edit, select and highlight rows.

The project has these modules:

- `Text` models the Python 2 string builtins the widget uses: `find`,
  `startswith`, `strip`, `rstrip`, `lstrip` and `split()`.
- `Ints` models `int()` and `%d`.
- `Decimals` models `"%.4f" % float()`.
- `Log` holds the messages the widget sends to the application log, as values,
  with the logger method each one goes to.
  `Message` renders the exact text of each one.
- `Codec` is the file format:
  - `ParseLine` is one iteration of the loading loop;
  - `Load` is a whole file;
  - `FormatRow` is one line written by the saving loop;
  - `Save` is a whole table;
  - `FileText` joins written lines into the file's text, and `FileLines` splits
    text after each newline, as `readlines()` does.
- `RoundTrip` and `LineRules` hold lemmas about the file format.
- `RowStore` specifies, as functions on `seq<Row>`, what the handlers do to the
  rows.
- `Widget` is the imperative part:
  - `ReadLine`, `ReadFields`, `ScanInt`, `ScanFloat` and `WriteLine` are the
    loops of the load and save code;
  - the class `ToolTable` holds the row store, the log and the row of the tool
    in the spindle, and has one method per handler.

Each method's contract ties its result or new state to the specification
functions, and the lemmas prove what those functions promise.

A few behaviours of the code are kept exactly as written:

- A line that has no word for a keyword keeps that column's default. Nothing is
  logged for it.
- Only a value that cannot be converted is logged.
- Only the first word that starts with a keyword letter is looked at. The scan
  stops there even when that word does not convert.
- The defaults for the diameter and the Z offset are the text `0`, not `0.0000`.
- Every leading copy of the keyword letter is stripped, so `TT5` reads as
  tool 5.
- As with Python 2's `int()`, whitespace may follow the sign, so a tool number
  edited to `- 5` becomes -5.

## Model

| member | source | states |
|---|---|---|
| Text.Find | hazzy/modules/ToolTable/ToolTable.py:98 | `find(";")` is -1 exactly when there is no `;`; otherwise it is the first `;` |
| Text.RStripChar | hazzy/modules/ToolTable/ToolTable.py:100 | `rstrip("\n")` is no longer than its input; everything it removed is a newline, and what it keeps does not end in one |
| Text.RStripCharPrefix | hazzy/modules/ToolTable/ToolTable.py:100 | what `rstrip("\n")` keeps is a prefix of the line |
| Text.LStripChar | hazzy/modules/ToolTable/ToolTable.py:116 | `lstrip(letter)` is no longer than its input; everything it removed is the letter, and what it keeps does not start with it |
| Text.LStripCharSuffix | hazzy/modules/ToolTable/ToolTable.py:116 | what `lstrip(letter)` keeps is a suffix of the word |
| Text.RStrip | hazzy/modules/ToolTable/ToolTable.py:103 | `rstrip()` removes only whitespace, and the text it keeps does not end in whitespace |
| Text.LStrip | hazzy/modules/ToolTable/ToolTable.py:153 | `lstrip()` (the left half of `strip()`) removes only whitespace, and the text it keeps does not start with whitespace |
| Text.Split | hazzy/modules/ToolTable/ToolTable.py:112 | every word `split()` yields is non-empty and contains no whitespace |
| Text.SplitLayout | hazzy/modules/ToolTable/ToolTable.py:112 | the text is its words, in order, with runs of whitespace before, between and after them; the runs between words are non-empty |
| Text.RStripPrefix | hazzy/modules/ToolTable/ToolTable.py:103 | `rstrip()` yields a prefix of its argument |
| Text.LStripSuffix | hazzy/modules/ToolTable/ToolTable.py:153 | `lstrip()` yields a suffix of its argument |
| Text.StripIdempotent | hazzy/modules/ToolTable/ToolTable.py:153 | stripping twice is stripping once |
| Text.StripTrailingSpace | hazzy/modules/ToolTable/ToolTable.py:153 | a space written after a stripped value is stripped again |
| Text.SplitWord | hazzy/modules/ToolTable/ToolTable.py:112 | `split()` of a word, a space and more text is the word followed by the split of the rest |
| Text.SplitOneWord | hazzy/modules/ToolTable/ToolTable.py:112 | `split()` of a single word is that word alone |
| Ints.IntToString | hazzy/modules/ToolTable/ToolTable.py:151 | `%d` writes digits, preceded by a minus sign exactly for negative numbers |
| Ints.DigitsRoundTrip | hazzy/modules/ToolTable/ToolTable.py:151 | the digits `%d` writes have the value of the number |
| Ints.SpaceAfterSign | hazzy/modules/ToolTable/ToolTable.py:205-222 | `int()` reads a sign, any run of whitespace and digits as the signed number, so `- 5` is -5 |
| Ints.IntRoundTrip | hazzy/modules/ToolTable/ToolTable.py:116 | `int()` reads back every number `%d` writes |
| Decimals.Fixed4 | hazzy/modules/ToolTable/ToolTable.py:124 | a converted value is in canonical four-place form, and only a decimal literal converts |
| Decimals.Fixed4Canonical | hazzy/modules/ToolTable/ToolTable.py:124 | a value already in four-place form converts to itself |
| Decimals.Fixed4Exact | hazzy/modules/ToolTable/ToolTable.py:124 | the conversion keeps the sign and the value of the literal and writes exactly four places |
| Decimals.FixedNoSpace | hazzy/modules/ToolTable/ToolTable.py:153 | a four-place value is one word without `;`, made of digits, a point and a leading minus sign |
| Decimals.Fixed4Converts | hazzy/modules/ToolTable/ToolTable.py:124 | text holding a literal converts exactly when the literal has at most four places and eleven whole digits, and the result has the literal's sign and value with four places |
| Decimals.Fixed4OnePointFive | hazzy/modules/ToolTable/ToolTable.py:124 | `1.5` converts to `1.5000` |
| Decimals.Fixed4MinusQuarter | hazzy/modules/ToolTable/ToolTable.py:124 | `-0.25` converts to `-0.2500` |
| Decimals.ZeroConverts | hazzy/modules/ToolTable/ToolTable.py:124 | the text `0` converts to `0.0000` |
| Log.MessageNamesSubject | hazzy/modules/ToolTable/ToolTable.py:87-296 | every log message names its subject: the quoted value or text, the tool number or the selection count |
| Log.ConversionMessage | hazzy/modules/ToolTable/ToolTable.py:118-127 | a conversion error quotes the value, names the type it expected and ends with the data part of the line |
| Codec.FirstWith | hazzy/modules/ToolTable/ToolTable.py:112-113 | the word found is the first one that starts with the letter; None means no word does |
| Codec.IntField | hazzy/modules/ToolTable/ToolTable.py:114-121 | an integer column that fails to convert logs an integer conversion error |
| Codec.FloatField | hazzy/modules/ToolTable/ToolTable.py:122-129 | a float column that converts holds four-place text, and one that fails logs a float conversion error |
| Codec.Field.Errors | hazzy/modules/ToolTable/ToolTable.py:117-129 | a column logs at most one error, and logs one exactly when its value did not convert |
| Codec.ParseLine | hazzy/modules/ToolTable/ToolTable.py:95-133 | a read row is unchecked and white, its diameter and Z offset are `0` or four-place text, and at most four errors are logged |
| Codec.Save | hazzy/modules/ToolTable/ToolTable.py:144-155 | the file has one line per row |
| RoundTrip.ColumnsWritten | hazzy/modules/ToolTable/ToolTable.py:147-153 | the column loop writes the tool, pocket, diameter, Z and comment words in order, each followed by a space, and skips columns 0 and 6 |
| RoundTrip.SavedLineShape | hazzy/modules/ToolTable/ToolTable.py:144-155 | a saved line is the four data words, then `;`, the stripped comment, a space and a newline |
| RoundTrip.FieldsRoundTrip | hazzy/modules/ToolTable/ToolTable.py:109-130 | scanning the data words of a saved row gives back its tool, pocket, diameter and Z offset |
| RoundTrip.FormatThenParse | hazzy/modules/ToolTable/ToolTable.py:95-155 | parsing a saved row's line as one line gives back its numbers, four-place offsets and stripped comment plus a space, unchecked and white, with nothing logged |
| RoundTrip.SaveLoadFixedPoint | hazzy/modules/ToolTable/ToolTable.py:95-155 | a row with four-place offsets is saved to the same line after its saved line is parsed as one line |
| RoundTrip.StableAfterOneCycle | hazzy/modules/ToolTable/ToolTable.py:95-155 | whatever a line holds, after one parse and save the line is stable |
| RoundTrip.GatherRows | hazzy/modules/ToolTable/ToolTable.py:95-133 | loading keeps one row per line, in order |
| RoundTrip.GatherLogEmpty | hazzy/modules/ToolTable/ToolTable.py:95-133 | loading logs nothing exactly when no line logs anything |
| RoundTrip.LoadAppendLine | hazzy/modules/ToolTable/ToolTable.py:95-133 | one more line appends its row to the table and its errors to the log |
| RoundTrip.LoadRows | hazzy/modules/ToolTable/ToolTable.py:95-133 | the loaded table has one row per line, and each row is what its own line reads as |
| RoundTrip.LoadLogEmpty | hazzy/modules/ToolTable/ToolTable.py:95-133 | a file loads without log messages exactly when none of its lines has an unconvertible value |
| RoundTrip.LoadConversionErrors | hazzy/modules/ToolTable/ToolTable.py:114-129 | every message loading a file logs is a conversion error sent to `log.error` |
| RoundTrip.LinesOfText | hazzy/modules/ToolTable/ToolTable.py:92 | `readlines()` gives back the lines a file was written from, when each ends in its only newline |
| RoundTrip.SavedLineIsLine | hazzy/modules/ToolTable/ToolTable.py:144-155 | a saved row with no newline in its diameter, Z offset or comment, the default `0` offsets included, is one line ending in a newline |
| RoundTrip.NewlineCommentSplits | hazzy/modules/ToolTable/ToolTable.py:92-155 | a row whose stripped comment holds a newline is saved as text that `readlines()` reads as two or more lines |
| RoundTrip.SavedFileLines | hazzy/modules/ToolTable/ToolTable.py:92-155 | `readlines()` of a saved file whose rows have no newline in their offsets or comments, the default `0` offsets included, gives back the saved lines |
| RoundTrip.SaveLoadTable | hazzy/modules/ToolTable/ToolTable.py:82-155 | saving a table with four-place offsets and newline-free comments, reading the file back with `readlines()` and loading it logs nothing and gives every row back, unchecked, white and with its comment normalised, and saving again writes the same file |
| RoundTrip.TableStableAfterOneCycle | hazzy/modules/ToolTable/ToolTable.py:82-155 | whatever lines a file holds, after one load and save those lines load without errors and save unchanged |
| LineRules.CommentAfterFirstSemicolon | hazzy/modules/ToolTable/ToolTable.py:98-102 | the comment is everything after the first `;`, with later `;` and spaces kept and trailing newlines removed |
| LineRules.NoSemicolonNoComment | hazzy/modules/ToolTable/ToolTable.py:97-100 | a line without `;` has an empty comment |
| LineRules.FirstMatchWins | hazzy/modules/ToolTable/ToolTable.py:112-130 | words after the first match change nothing, whether or not the match converted |
| LineRules.AbsentKeyword | hazzy/modules/ToolTable/ToolTable.py:112-113 | a keyword that no word starts with keeps its default and logs nothing |
| LineRules.NoKeywordDefaults | hazzy/modules/ToolTable/ToolTable.py:104-130 | a line with no T, P, D or Z word reads as the default row with its comment and logs nothing |
| LineRules.RepeatedLetterStripped | hazzy/modules/ToolTable/ToolTable.py:116 | a word made of the keyword letter twice and then a number (`%d` text, or four-place text in a float column) reads as that number, for any letter that is not a digit, a minus sign or whitespace |
| LineRules.BareLetter | hazzy/modules/ToolTable/ToolTable.py:115-129 | a bare keyword letter logs one conversion error quoting an empty value |
| RowStore.SelectedIndices | hazzy/modules/ToolTable/ToolTable.py:175-178 | the collected indices are exactly the checked rows, in increasing order |
| RowStore.LastIndexOf | hazzy/modules/ToolTable/ToolTable.py:277-281 | the last row holding the tool, or None when no row holds it |
| RowStore.FirstIndexOf | hazzy/modules/ToolTable/ToolTable.py:287-291 | the first row holding the tool, or None when no row holds it |
| RowStore.Highlighted | hazzy/modules/ToolTable/ToolTable.py:277-282 | highlighting keeps the number of rows |
| RowStore.SelectedToolsAreSelectedRows | hazzy/modules/ToolTable/ToolTable.py:165-171 | the tool list has one entry per checked row, in row order, holding that row's tool |
| RowStore.SelectedToolMembership | hazzy/modules/ToolTable/ToolTable.py:165-171 | a tool is listed exactly when some checked row holds it |
| RowStore.NoneSelected | hazzy/modules/ToolTable/ToolTable.py:165-181 | with no row checked, nothing is listed and deletion keeps every row |
| RowStore.UnselectedAppend | hazzy/modules/ToolTable/ToolTable.py:173-181 | deleting from two parts of the table deletes from each part |
| RowStore.UnselectedKeepsExactly | hazzy/modules/ToolTable/ToolTable.py:173-181 | after deletion no row is checked, every unchecked row remains, and the checked rows are the ones that went |
| RowStore.SelectionGap | hazzy/modules/ToolTable/ToolTable.py:175-181 | no row between two neighbouring collected indices is checked |
| RowStore.DeleteSelectedRun | hazzy/modules/ToolTable/ToolTable.py:179-181 | deleting from a checked row to the next one drops that row and keeps the run after it |
| RowStore.RemoveSelected | hazzy/modules/ToolTable/ToolTable.py:179-181 | removing the next checked row, going backwards, keeps the table in order with deletion done from that row on |
| RowStore.ThinnedFrom | hazzy/modules/ToolTable/ToolTable.py:179-181 | once the first checked row is removed, the whole table is done |
| RowStore.DeleteFirstSelected | hazzy/modules/ToolTable/ToolTable.py:173-181 | a checked first row is dropped and the rest is handled alone |
| RowStore.HighlightedRows | hazzy/modules/ToolTable/ToolTable.py:277-282 | after highlighting no row is checked, a row is gray exactly when it holds the tool, and the other columns are kept |
| RowStore.HighlightIdempotent | hazzy/modules/ToolTable/ToolTable.py:275-282 | highlighting twice is highlighting once |
| RowStore.LastIsGray | hazzy/modules/ToolTable/ToolTable.py:280-282 | the row taken as the current tool is gray |
| RowStore.FollowDelete | hazzy/modules/ToolTable/ToolTable.py:173-181 | the current row survives deletion exactly when it exists and is unchecked; it then moves up by the number of checked rows above it and still names the same row |
| RowStore.FirstIndexAt | hazzy/modules/ToolTable/ToolTable.py:288-291 | the top-down scan stops at the first row holding the tool |
| Widget.ScanInt | hazzy/modules/ToolTable/ToolTable.py:112-121 | the word loop for an integer column finds what `IntField` specifies |
| Widget.ScanFloat | hazzy/modules/ToolTable/ToolTable.py:112-130 | the word loop for a float column finds what `FloatField` specifies |
| Widget.ReadInt | hazzy/modules/ToolTable/ToolTable.py:114-121 | an integer column takes the converted value or keeps its value and logs the error |
| Widget.ReadFloat | hazzy/modules/ToolTable/ToolTable.py:122-129 | a float column takes the converted value or keeps its value and logs the error |
| Widget.ErrorsOfAllColumns | hazzy/modules/ToolTable/ToolTable.py:110-130 | after the six keywords the log holds the errors of the T, P, D and Z columns, in that order |
| Widget.ReadFields | hazzy/modules/ToolTable/ToolTable.py:104-130 | the keyword loop leaves each column at its specified value and logs the columns' errors in T, P, D, Z order |
| Widget.ReadLine | hazzy/modules/ToolTable/ToolTable.py:97-130 | one loop iteration yields the row and the errors `ParseLine` specifies |
| Widget.WriteLine | hazzy/modules/ToolTable/ToolTable.py:145-155 | the column loop writes the line `FormatRow` specifies |
| Widget.ToolTable.constructor | hazzy/modules/ToolTable/ToolTable.py:51-60 | the widget starts with an empty store, an empty log and no current tool |
| Widget.ToolTable.LoadToolTable | hazzy/modules/ToolTable/ToolTable.py:82-133 | a missing file logs a warning and keeps the rows and the current tool; otherwise the store is cleared, so there is no current tool, the rows become `Load(lines).rows` and its errors are appended to the log |
| Widget.ToolTable.SaveToolTable | hazzy/modules/ToolTable/ToolTable.py:137-155 | the written lines are `Save(rows)` |
| Widget.ToolTable.AddTool | hazzy/modules/ToolTable/ToolTable.py:162-163 | the row is appended and nothing else changes |
| Widget.ToolTable.AddNewTool | hazzy/modules/ToolTable/ToolTable.py:194-197 | an unchecked row numbered one past the row count is appended, with `0.0000` offsets and remark `New Tool` |
| Widget.ToolTable.GetSelectedTools | hazzy/modules/ToolTable/ToolTable.py:165-171 | the result is the tool numbers of the checked rows, in order |
| Widget.ToolTable.SelectedRows | hazzy/modules/ToolTable/ToolTable.py:174-178 | the collected indices are those of the checked rows |
| Widget.ToolTable.DeleteSelected | hazzy/modules/ToolTable/ToolTable.py:173-181 | the rows become the unchecked rows in their order and the log is kept; the current tool follows its row, or is gone when its row was deleted |
| Widget.ToolTable.EditToolNumber | hazzy/modules/ToolTable/ToolTable.py:205-213 | text `int()` accepts sets the row's tool and pocket; otherwise the rows are kept and the invalid number is logged |
| Widget.ToolTable.EditPocket | hazzy/modules/ToolTable/ToolTable.py:214-222 | text `int()` accepts sets the row's pocket; otherwise the rows are kept and the invalid pocket is logged |
| Widget.ToolTable.EditRemark | hazzy/modules/ToolTable/ToolTable.py:242-243 | the row's comment is replaced as typed and nothing else changes |
| Widget.ToolTable.ToggleSelect | hazzy/modules/ToolTable/ToolTable.py:261-263 | the row's check box is flipped and nothing else changes |
| Widget.ToolTable.HighlightTool | hazzy/modules/ToolTable/ToolTable.py:275-282 | the rows become `Highlighted`; the current tool becomes the last row holding the tool, or is kept when no row holds it |
| Widget.ToolTable.SetSelectedTool | hazzy/modules/ToolTable/ToolTable.py:285-296 | the first row holding the tool is checked; with no such row, the rows are kept and a warning names the tool |
| Widget.ToolTable.ChangeToSelectedTool | hazzy/modules/ToolTable/ToolTable.py:183-192 | with exactly one tool checked, the result is the `M6 T<n> G43` command for it; otherwise there is no command and the count is logged |

## Left out

- GTK is not modelled: the tree view, the builder, the cursor on the found row
  (line 294), the touch pads and the button-press handler.
- A row's path is a plain index. Each handler that takes one requires the index
  to be in range, as GTK only passes paths of existing rows.
- The file system is not modelled. `LoadToolTable` takes the file's lines, or
  None when the file does not exist. `SaveToolTable` returns the lines it
  writes.
- The choice of file name, the flush and fsync of the saved file, and the
  request for LinuxCNC to reload its table are not modelled.
- Debug log messages and the unused `toolinfo` attribute are left out.
- `current_tool_data` is a reference to a live tree-model row. Here it is the
  index of that row (`ToolTable.current`). The index follows its row when rows
  above it are deleted, and becomes None when the row itself is deleted or the
  store is cleared by a load. No other handler removes rows. The widget sets
  the attribute only in `highlight_tool` and never reads it; before the first
  highlight it does not exist, which is None here.
- The tool and pocket columns are typed in `ToolTable.ui`, which is not part of
  this model. They are unbounded integers here, so a number that would overflow
  a 32-bit `gint` column is not modelled.
- `add_tool` has the default argument `data=None`. Every caller passes a row, so
  the call without one is not modelled.
- `on_tool_dia_edited` and `on_z_offset_edited` are not modelled. They evaluate
  the entry with an expression evaluator whose source is not part of this
  model.
- `on_load_tool_table_clicked` and `on_save_tool_table_clicked` are not modelled
  separately, because they only call `LoadToolTable` and `SaveToolTable`.
- `ChangeToSelectedTool` returns the MDI command instead of issuing it.
- Decimals.Fixed4: the conversion covers an optional sign, digits, an optional
  point, at most four places and at most eleven whole digits. Exponents,
  `inf`, `nan` and values that `%.4f` would round are treated as failed
  conversions.
- Ints.PyInt: the whitespace stripped by `int()`, `strip()` and `split()` is the
  six ASCII whitespace characters of Python 2 byte strings. Python 3's other
  Unicode spaces and the underscores it allows in `int()` are not modelled.
- Three calls in the source raise an exception after the state this model
  describes has been reached. The model stops at that state:
  - `save_tool_table` calls `linuxcnc.command()` (line 160), but `linuxcnc` is
    never imported, so it raises NameError after the file is written;
  - `on_change_to_selected_tool_clicked` calls `self.issue_mdi` (line 187),
    which the class does not define;
  - `set_selected_tool` uses `self.widgets` (line 294), which the class does not
    define, after the check box is set.
- Widget.ToolTable.EditRemark: a remark typed with a newline or a `;` in it is
  stored as typed. The file round trip (`SaveLoadTable`) requires comments
  without a newline, because a newline in a comment makes `readlines()` split
  the saved line in two (`NewlineCommentSplits`). What those pieces then load
  as is not modelled. A `;` in a comment is read back as part of the comment.
