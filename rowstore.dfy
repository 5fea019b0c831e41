/**
 * What the tool table's operations do to its list of rows, as functions on
 * `seq<Row>`; the methods of `Widget.ToolTable` are proved against them.
 */
module RowStore {
  import opened Wrappers
  import opened Codec

  /** The tool numbers of the selected rows, in row order. */
  function SelectedTools(rows: seq<Row>): seq<int> {
    if rows == [] then []
    else
      var last := rows[|rows| - 1];
      SelectedTools(rows[..|rows| - 1]) + (if last.selected then [last.tool] else [])
  }

  /** The indices of the selected rows, in increasing order. */
  function SelectedIndices(rows: seq<Row>): (indices: seq<nat>)
    ensures forall k :: 0 <= k < |indices| ==> indices[k] < |rows| && rows[indices[k]].selected
    ensures forall k, l :: 0 <= k < l < |indices| ==> indices[k] < indices[l]
    ensures forall i :: 0 <= i < |rows| && rows[i].selected ==> i in indices
  {
    if rows == [] then []
    else
      var n := |rows| - 1;
      var before := SelectedIndices(rows[..n]);
      assert forall k :: 0 <= k < |before| ==> rows[before[k]] == rows[..n][before[k]];
      before + (if rows[n].selected then [n] else [])
  }

  /** The rows left by deleting the selected ones, in their original order. */
  function Unselected(rows: seq<Row>): seq<Row> {
    if rows == [] then []
    else
      var last := rows[|rows| - 1];
      Unselected(rows[..|rows| - 1]) + (if last.selected then [] else [last])
  }

  /** The rows after `highlight_tool(tool)`: nothing selected, gray exactly where the tool number matches. */
  function Highlighted(rows: seq<Row>, tool: int): (result: seq<Row>)
    ensures |result| == |rows|
  {
    seq(|rows|, i requires 0 <= i < |rows| =>
      rows[i].(selected := false, colour := if rows[i].tool == tool then Gray else White))
  }

  /** The index of the last row holding `tool`. */
  function LastIndexOf(rows: seq<Row>, tool: int): (r: Option<nat>)
    ensures r.Some? ==> r.value < |rows| && rows[r.value].tool == tool
    ensures r.Some? ==> forall i :: r.value < i < |rows| ==> rows[i].tool != tool
    ensures r.None? ==> forall i :: 0 <= i < |rows| ==> rows[i].tool != tool
  {
    if rows == [] then None
    else if rows[|rows| - 1].tool == tool then Some(|rows| - 1)
    else LastIndexOf(rows[..|rows| - 1], tool)
  }

  /** The index of the first row holding `tool`. */
  function FirstIndexOf(rows: seq<Row>, tool: int): (r: Option<nat>)
    ensures r.Some? ==> r.value < |rows| && rows[r.value].tool == tool
    ensures r.Some? ==> forall i :: 0 <= i < r.value ==> rows[i].tool != tool
    ensures r.None? ==> forall i :: 0 <= i < |rows| ==> rows[i].tool != tool
  {
    if rows == [] then None
    else if rows[0].tool == tool then Some(0)
    else
      match FirstIndexOf(rows[1..], tool)
      case None => None
      case Some(k) => Some(k + 1)
  }

  /** The first row holding a tool, found by scanning from the top. */
  lemma FirstIndexAt(rows: seq<Row>, tool: int, i: nat)
    requires i < |rows| && rows[i].tool == tool
    requires forall k :: 0 <= k < i ==> rows[k].tool != tool
    ensures FirstIndexOf(rows, tool) == Some(i)
  {
  }

  /** The row `on_add_tool_clicked` appends: tool and pocket one past the row count, zero offsets, a placeholder remark. */
  function NewToolRow(count: nat): Row {
    Row(false, count + 1, count + 1, "0.0000", "0.0000", "New Tool", White)
  }

  // ---------------------------------------------------------------------------
  // Selection

  /** The selected tools are the tools of the selected rows, one for each, in order. */
  lemma {:induction false} SelectedToolsAreSelectedRows(rows: seq<Row>)
    ensures var indices := SelectedIndices(rows);
            |SelectedTools(rows)| == |indices|
            && forall k :: 0 <= k < |indices| ==> SelectedTools(rows)[k] == rows[indices[k]].tool
  {
    if rows != [] {
      var n := |rows| - 1;
      SelectedToolsAreSelectedRows(rows[..n]);
      var tools, before := SelectedTools(rows[..n]), SelectedIndices(rows[..n]);
      var all := SelectedIndices(rows);
      assert all == before + (if rows[n].selected then [n] else []);
      assert SelectedTools(rows) == tools + (if rows[n].selected then [rows[n].tool] else []);
      forall k | 0 <= k < |before| ensures SelectedTools(rows)[k] == rows[all[k]].tool {
        assert all[k] == before[k];
        assert rows[before[k]] == rows[..n][before[k]];
      }
    }
  }

  /** A tool number is reported exactly when some selected row holds it. */
  lemma {:induction false} SelectedToolMembership(rows: seq<Row>, tool: int)
    ensures tool in SelectedTools(rows) <==> exists i :: 0 <= i < |rows| && rows[i].selected && rows[i].tool == tool
  {
    if rows != [] {
      var n := |rows| - 1;
      SelectedToolMembership(rows[..n], tool);
      if exists i :: 0 <= i < n && rows[..n][i].selected && rows[..n][i].tool == tool {
        var i :| 0 <= i < n && rows[..n][i].selected && rows[..n][i].tool == tool;
        assert rows[i] == rows[..n][i];
      }
      if exists i :: 0 <= i < |rows| && rows[i].selected && rows[i].tool == tool {
        var i :| 0 <= i < |rows| && rows[i].selected && rows[i].tool == tool;
        if i < n { assert rows[..n][i] == rows[i]; }
      }
    }
  }

  /** With nothing selected the query is empty. */
  lemma {:induction false} NoneSelected(rows: seq<Row>)
    requires forall i :: 0 <= i < |rows| ==> !rows[i].selected
    ensures SelectedTools(rows) == [] && SelectedIndices(rows) == [] && Unselected(rows) == rows
  {
    if rows != [] {
      var n := |rows| - 1;
      NoneSelected(rows[..n]);
      assert rows[..n] + [rows[n]] == rows;
    }
  }

  // ---------------------------------------------------------------------------
  // Deleting the selected rows

  /** Deleting from two parts deletes from each. */
  lemma {:induction false} UnselectedAppend(a: seq<Row>, b: seq<Row>)
    ensures Unselected(a + b) == Unselected(a) + Unselected(b)
    decreases |b|
  {
    if b == [] {
      assert a + b == a;
    } else {
      var n := |b| - 1;
      assert (a + b)[..|a + b| - 1] == a + b[..n];
      assert (a + b)[|a + b| - 1] == b[n];
      UnselectedAppend(a, b[..n]);
      var tail := if b[n].selected then [] else [b[n]];
      assert Unselected(a + b) == Unselected(a) + Unselected(b[..n]) + tail;
      assert Unselected(b) == Unselected(b[..n]) + tail;
    }
  }

  /** Deletion keeps exactly the unselected rows: none of what remains is selected, and as many remain as were not selected. */
  lemma {:induction false} UnselectedKeepsExactly(rows: seq<Row>)
    ensures forall k :: 0 <= k < |Unselected(rows)| ==> !Unselected(rows)[k].selected
    ensures |Unselected(rows)| + |SelectedIndices(rows)| == |rows|
    ensures multiset(Unselected(rows)) <= multiset(rows)
    ensures forall i :: 0 <= i < |rows| && !rows[i].selected ==> rows[i] in Unselected(rows)
  {
    if rows != [] {
      var n := |rows| - 1;
      UnselectedKeepsExactly(rows[..n]);
      assert rows == rows[..n] + [rows[n]];
      assert forall i :: 0 <= i < n ==> rows[i] == rows[..n][i];
    }
  }

  /** Between two neighbouring selected indices, and before the first and after the last, no row is selected. */
  lemma SelectionGap(rows: seq<Row>, indices: seq<nat>, k: nat, j: nat)
    requires indices == SelectedIndices(rows) && k <= |indices|
    requires k == 0 || indices[k - 1] < j
    requires j < (if k == |indices| then |rows| else indices[k])
    ensures !rows[j].selected
  {
    GapUnselected(rows, indices, k, j);
  }

  /** The same, for any ascending list of indices that holds every selected row. */
  lemma GapUnselected(rows: seq<Row>, indices: seq<nat>, k: nat, j: nat)
    requires forall a, b :: 0 <= a < b < |indices| ==> indices[a] < indices[b]
    requires forall i :: 0 <= i < |rows| && rows[i].selected ==> i in indices
    requires forall a :: 0 <= a < |indices| ==> indices[a] < |rows|
    requires k <= |indices|
    requires k == 0 || indices[k - 1] < j
    requires j < (if k == |indices| then |rows| else indices[k])
    ensures !rows[j].selected
  {
    forall m | 0 <= m < |indices| ensures indices[m] != j {
      if m < k - 1 {
        assert indices[m] < indices[k - 1];
      } else if k < m {
        assert indices[k] < indices[m];
      }
    }
    assert j < |rows|;
    assert j !in indices;
  }

  /** Deleting from a selected row up to the next selected one drops the first and keeps the unselected run after it. */
  lemma DeleteSelectedRun(rows: seq<Row>, r: nat, cut: nat)
    requires r < cut <= |rows| && rows[r].selected
    requires forall j :: r < j < cut ==> !rows[j].selected
    ensures Unselected(rows[r..]) == rows[r + 1..cut] + Unselected(rows[cut..])
  {
    var run := rows[r + 1..cut];
    assert rows[r..] == [rows[r]] + (run + rows[cut..]);
    assert Unselected([rows[r]]) == [] by { assert [rows[r]][..0] == []; }
    UnselectedAppend([rows[r]], run + rows[cut..]);
    UnselectedAppend(run, rows[cut..]);
    NoneSelected(run);
  }

  /**
   * Removing row `r` from a table whose rows from `cut` on have already been
   * thinned out, when `r` is selected and the rows between `r` and `cut` are
   * not, leaves the table thinned out from `r` on.
   */
  lemma RemoveSelected(rows: seq<Row>, r: nat, cut: nat)
    requires r < cut <= |rows| && rows[r].selected
    requires forall j :: r < j < cut ==> !rows[j].selected
    ensures var table := rows[..cut] + Unselected(rows[cut..]);
            table[..r] + table[r + 1..] == rows[..r] + Unselected(rows[r..])
  {
    var table := rows[..cut] + Unselected(rows[cut..]);
    DeleteSelectedRun(rows, r, cut);
    assert table[..r] == rows[..r];
    assert table[r + 1..] == rows[r + 1..cut] + Unselected(rows[cut..]);
  }

  /** A table with nothing selected before `cut` and thinned out from `cut` on is fully thinned out. */
  lemma ThinnedFrom(rows: seq<Row>, cut: nat)
    requires cut <= |rows|
    requires forall j :: 0 <= j < cut ==> !rows[j].selected
    ensures rows[..cut] + Unselected(rows[cut..]) == Unselected(rows)
  {
    var before, after := rows[..cut], rows[cut..];
    assert before + after == rows;
    UnselectedPrefix(rows, cut);
    UnselectedAppend(before, after);
  }

  lemma UnselectedPrefix(rows: seq<Row>, cut: nat)
    requires cut <= |rows|
    requires forall j :: 0 <= j < cut ==> !rows[j].selected
    ensures Unselected(rows[..cut]) == rows[..cut]
  {
    var before := rows[..cut];
    forall j | 0 <= j < |before| ensures !before[j].selected {
      assert before[j] == rows[j];
    }
    NoneSelected(before);
  }

  /**
   * One step of the backward deletion loop: with the rows from `cut` on done,
   * where `cut` is the selected index after the `k`-th, removing the `k`-th
   * selected row leaves the rows from it on done.
   */
  lemma DeleteStep(rows: seq<Row>, indices: seq<nat>, k: nat, cut: nat)
    requires indices == SelectedIndices(rows) && 0 < k <= |indices|
    requires cut == (if k == |indices| then |rows| else indices[k])
    ensures indices[k - 1] < cut <= |rows|
    ensures var table := rows[..cut] + Unselected(rows[cut..]);
            var r := indices[k - 1];
            table[..r] + table[r + 1..] == rows[..r] + Unselected(rows[r..])
  {
    var r := indices[k - 1];
    forall j | r < j < cut ensures !rows[j].selected {
      SelectionGap(rows, indices, k, j);
    }
    RemoveSelected(rows, r, cut);
  }

  /** When the backward deletion loop has removed the first selected row, the whole table is done. */
  lemma DeleteDone(rows: seq<Row>, indices: seq<nat>, cut: nat)
    requires indices == SelectedIndices(rows)
    requires cut == (if |indices| == 0 then |rows| else indices[0])
    ensures rows[..cut] + Unselected(rows[cut..]) == Unselected(rows)
  {
    forall j | 0 <= j < cut ensures !rows[j].selected {
      SelectionGap(rows, indices, 0, j);
    }
    ThinnedFrom(rows, cut);
  }

  /**
   * Where the row at index `c` is once the checked rows are deleted: moved up
   * past the deleted rows above it, or gone when it was deleted itself.
   */
  function FollowDelete(rows: seq<Row>, c: Option<nat>): (r: Option<nat>)
    ensures r.Some? <==> c.Some? && c.value < |rows| && !rows[c.value].selected
    ensures r.Some? ==> r.value == c.value - |SelectedIndices(rows[..c.value])|
    ensures r.Some? ==> r.value < |Unselected(rows)| && Unselected(rows)[r.value] == rows[c.value]
  {
    if c.Some? && c.value < |rows| && !rows[c.value].selected then
      KeptRowAt(rows, c.value);
      Some(|Unselected(rows[..c.value])|)
    else None
  }

  /** An unchecked row stays, below the rows kept above it. */
  lemma KeptRowAt(rows: seq<Row>, i: nat)
    requires i < |rows| && !rows[i].selected
    ensures |Unselected(rows[..i])| == i - |SelectedIndices(rows[..i])|
    ensures |Unselected(rows[..i])| < |Unselected(rows)|
    ensures Unselected(rows)[|Unselected(rows[..i])|] == rows[i]
  {
    UnselectedKeepsExactly(rows[..i]);
    assert rows == rows[..i] + rows[i..];
    UnselectedAppend(rows[..i], rows[i..]);
    assert rows[i..] == [rows[i]] + rows[i + 1..];
    UnselectedAppend([rows[i]], rows[i + 1..]);
    assert Unselected([rows[i]]) == [rows[i]] by { assert [rows[i]][..0] == []; }
  }

  /** Deleting a selected first row and then the rest is deleting from all of them. */
  lemma DeleteFirstSelected(rows: seq<Row>)
    requires rows != [] && rows[0].selected
    ensures Unselected(rows) == Unselected(rows[1..])
  {
    UnselectedAppend([rows[0]], rows[1..]);
    assert [rows[0]] + rows[1..] == rows;
    assert Unselected([rows[0]]) == [] by { assert [rows[0]][..0] == []; }
  }

  // ---------------------------------------------------------------------------
  // Highlighting

  /** After highlighting, nothing is selected, exactly the rows holding the tool are gray, and tool, pocket, offsets and comments are kept. */
  lemma HighlightedRows(rows: seq<Row>, tool: int)
    ensures forall i :: 0 <= i < |rows| ==>
              var h := Highlighted(rows, tool)[i];
              && !h.selected
              && (h.colour == Gray <==> rows[i].tool == tool)
              && h.(selected := rows[i].selected, colour := rows[i].colour) == rows[i]
  {
  }

  /** Highlighting twice is highlighting once. */
  lemma HighlightIdempotent(rows: seq<Row>, tool: int)
    ensures Highlighted(Highlighted(rows, tool), tool) == Highlighted(rows, tool)
  {
  }

  /** The highlighted tool is the last row holding the tool number, when some row does. */
  lemma LastIsGray(rows: seq<Row>, tool: int)
    requires LastIndexOf(rows, tool).Some?
    ensures Highlighted(rows, tool)[LastIndexOf(rows, tool).value].colour == Gray
  {
  }
}
