/**
 Where a comment editor shows its cursor, and what each row shows at each column: told from the editor's
 row, column and mode alone (`crates/comment-editor/src/view.rs`).
 */
module EditorCursor {
  import opened Common
  import opened Wrappers
  import opened EditorWrap
  import opened EditorView

  // The glyphs of a line.

  lemma {:induction false} LineCharsGrow(line: seq<Grapheme>, a: nat, b: nat)
    requires a <= b <= |line|
    ensures LineChars(line[..a]) <= LineChars(line[..b])
    ensures Graphemes(line) && a < b ==> LineChars(line[..a]) < LineChars(line[..b])
    decreases b - a
  {
    if a < b {
      assert line[..b][..b - 1] == line[..b - 1];
      LineCharsGrow(line, a, b - 1);
    }
  }

  /** The glyph `k` of a line: its width on screen, and where it is in the line. */
  ghost predicate IsGlyphOf(line: seq<Grapheme>, k: nat, width: nat, glyph: Glyph)
    requires k < |line|
  {
    && glyph.sourceColumn == LineChars(line[..k])
    && match line[k]
       case Tab => glyph.whitespace && glyph.width == (if width == 1 then 1 else 2)
       case Symbol(_, symbolWidth, whitespace) =>
         glyph.whitespace == whitespace && glyph.width == (if symbolWidth <= width then symbolWidth else 1)
  }

  lemma {:induction false} GlyphIs(line: seq<Grapheme>, width: nat, cursor: Option<nat>, k: nat)
    requires width > 0 && k < |line|
    ensures var glyph := Glyphs(line, width, cursor)[k];
      && IsGlyphOf(line, k, width, glyph)
      && (glyph.cursor <==> cursor.Some? && LineChars(line[..k]) <= cursor.value < LineChars(line[..k + 1]))
    decreases |line|
  {
    var before := line[..|line| - 1];
    if k < |line| - 1 {
      assert before[..k] == line[..k] && before[..k + 1] == line[..k + 1];
      GlyphIs(before, width, cursor, k);
    } else {
      assert line[..k] == before && line[..k + 1] == line;
    }
  }

  /** Whether the editor's cursor is on the character `k` of the line: past the line, on its last one. */
  ghost predicate IsUnderCursor(editor: Editor, line: seq<Grapheme>, k: nat)
    requires k < |line|
  {
    if editor.column < LineChars(line) then LineChars(line[..k]) <= editor.column < LineChars(line[..k + 1])
    else !editor.insert && k == |line| - 1
  }

  /** The glyphs of a line are those of its graphemes, in order, with the cursor on the one it is on. */
  lemma {:induction false} LineGlyphIs(editor: Editor, sourceRow: nat, line: seq<Grapheme>, width: nat, k: nat)
    requires width > 0 && Graphemes(line) && k < |line|
    ensures var glyphs := AllGlyphs(Wrapped(editor, sourceRow, line, width));
      && |glyphs| == |line| && IsGlyphOf(line, k, width, glyphs[k])
      && (glyphs[k].cursor <==> sourceRow == editor.row && IsUnderCursor(editor, line, k))
  {
    WrappedKeepsGlyphs(editor, sourceRow, line, width);
    GlyphIs(line, width, LineCursor(editor, sourceRow, line), k);
    assert line[..|line|] == line;
    LineCharsGrow(line, k + 1, |line|);
    LineCharsGrow(line, k, k + 1);
    if k < |line| - 1 {
      LineCharsGrow(line, k + 1, |line| - 1);
      LineCharsGrow(line, |line| - 1, |line|);
    } else {
      LineCharsGrow(line, 0, k);
    }
  }

  // The rows of a line.

  /** The columns of a row, each with the column in the line of the glyph that starts there. */
  ghost predicate ArePositions(glyphs: seq<Glyph>, width: nat, positions: seq<(nat, nat)>) {
    && |positions| <= |glyphs|
    && (forall i :: 0 <= i < |positions| ==> positions[i] == (Sum(glyphs[..i]), glyphs[i].sourceColumn))
    && (forall i :: 0 <= i < |glyphs| ==> (i < |positions| <==> Sum(glyphs[..i]) < width))
  }

  lemma SumGrows(glyphs: seq<Glyph>)
    requires glyphs != []
    ensures Sum(glyphs[..|glyphs| - 1]) <= Sum(glyphs)
  {
  }

  lemma PositionMore(before: seq<Glyph>, last: Glyph, width: nat, positions: seq<(nat, nat)>)
    requires ArePositions(before, width, positions)
    ensures ArePositions(before + [last], width,
                         positions + if Sum(before) < width then [(Sum(before), last.sourceColumn)] else [])
  {
    if before != [] {
      SumGrows(before);
    }
    hide Sum;
    var glyphs := before + [last];
    assert forall i :: 0 <= i < |before| ==> glyphs[..i] == before[..i];
    assert glyphs[..|before|] == before;
  }

  lemma {:induction false} PositionsAre(glyphs: seq<Glyph>, width: nat)
    ensures ArePositions(glyphs, width, RowPositions(glyphs, width))
  {
    if glyphs != [] {
      var before, last := glyphs[..|glyphs| - 1], glyphs[|glyphs| - 1];
      hide ArePositions, Sum;
      PositionsAre(before, width);
      PositionMore(before, last, width, RowPositions(before, width));
      assert glyphs == before + [last];
    }
  }

  /** A row shows the cursor where the last glyph that holds it starts, and not past the row. */
  ghost predicate ShowsGlyph(row: Row, width: nat, at: nat)
    requires width > 0
  {
    && at < |row.glyphs| && row.glyphs[at].cursor
    && row.cursor == Some(if Sum(row.glyphs[..at]) < width then Sum(row.glyphs[..at]) else width - 1)
  }

  lemma {:induction false} RowCursorIs(glyphs: seq<Glyph>, sourceRow: nat, width: nat)
    requires width > 0
    ensures var row := RowOf(glyphs, sourceRow, width);
      if row.cursor == None then forall i :: 0 <= i < |glyphs| ==> !glyphs[i].cursor
      else exists at: nat :: ShowsGlyph(row, width, at)
    decreases |glyphs|
  {
    if glyphs != [] {
      var before, row := glyphs[..|glyphs| - 1], RowOf(glyphs, sourceRow, width);
      if glyphs[|before|].cursor {
        assert ShowsGlyph(row, width, |before|);
      } else {
        RowCursorIs(before, sourceRow, width);
        if row.cursor.Some? {
          var at: nat :| ShowsGlyph(RowOf(before, sourceRow, width), width, at);
          assert before[..at] == glyphs[..at];
          assert ShowsGlyph(row, width, at);
        }
      }
    }
  }

  lemma {:induction false} RowsAreOf(glyphs: seq<Glyph>, start: nat, sourceRow: nat, width: nat)
    requires Fitting(glyphs, width) && start <= |glyphs|
    ensures forall row :: row in RowsFrom(glyphs, start, sourceRow, width) ==>
              row == RowOf(row.glyphs, sourceRow, width)
    decreases |glyphs| - start
  {
    if start < |glyphs| {
      RowEndIs(glyphs, start, width);
      RowsAreOf(glyphs, RowEnd(glyphs, start, width), sourceRow, width);
    }
  }

  /** Whether the cursor is after the line: past it in insert mode, or on a line that holds nothing. */
  ghost predicate IsAfter(editor: Editor, line: seq<Grapheme>) {
    editor.column >= LineChars(line) && (editor.insert || line == [])
  }

  /** The columns of a row; after its last glyph one more, of the column `end`, when the row has it. */
  ghost predicate HasPositions(row: Row, width: nat, end: Option<nat>) {
    exists positions ::
      ArePositions(row.glyphs, width, positions)
      && row.positions == if end.Some? then positions + [(Sum(row.glyphs), end.value)] else positions
  }

  /** The cursor of a row is that of a glyph, unless no glyph holds it. */
  ghost predicate ShowsItsCursor(row: Row, width: nat)
    requires width > 0
  {
    if row.cursor == None then forall k :: 0 <= k < |row.glyphs| ==> !row.glyphs[k].cursor
    else exists at: nat :: ShowsGlyph(row, width, at)
  }

  /** A row of a line by itself: the last one has a column more, after the line, where it has room. */
  ghost predicate IsLineRow(editor: Editor, sourceRow: nat, line: seq<Grapheme>, width: nat, rows: seq<Row>, i: nat)
    requires i < |rows| && width > 0
  {
    var row := rows[i];
    var hasEnd := i == |rows| - 1 && (editor.insert || line == []) && Sum(row.glyphs) < width;
    && row.sourceRow == sourceRow && HasPositions(row, width, if hasEnd then Some(LineChars(line)) else None)
    && (if sourceRow == editor.row && IsAfter(editor, line) then
          row.cursor == if i == |rows| - 1 then Some(Sum(row.glyphs)) else None
        else ShowsItsCursor(row, width))
  }

  lemma RowOfIs(glyphs: seq<Glyph>, sourceRow: nat, width: nat)
    requires width > 0
    ensures var row := RowOf(glyphs, sourceRow, width);
      && ArePositions(glyphs, width, row.positions) && HasPositions(row, width, None) && ShowsItsCursor(row, width)
  {
    PositionsAre(glyphs, width);
    RowCursorIs(glyphs, sourceRow, width);
  }

  /** The last row with the column after the line, and with the cursor there when the editor's is. */
  lemma EndedRow(glyphs: seq<Glyph>, sourceRow: nat, width: nat, end: nat, hasCursor: bool)
    requires width > 0
    ensures var row := RowOf(glyphs, sourceRow, width);
      var ended := row.(
          positions := row.positions + [(Sum(glyphs), end)],
          cursor := if hasCursor then Some(Sum(glyphs)) else row.cursor);
      HasPositions(ended, width, Some(end)) && (!hasCursor ==> ShowsItsCursor(ended, width))
  {
    RowOfIs(glyphs, sourceRow, width);
    hide Sum, ArePositions;
    var row := RowOf(glyphs, sourceRow, width);
    if row.cursor.Some? && !hasCursor {
      var at: nat :| ShowsGlyph(row, width, at);
      var ended := row.(positions := row.positions + [(Sum(glyphs), end)]);
      assert ShowsGlyph(ended, width, at);
    }
  }

  lemma OwnRow(sourceRow: nat, width: nat, end: nat)
    requires width > 0
    ensures HasPositions(Row([], sourceRow, Some(0), [(0, end)]), width, Some(end))
  {
    PositionsAre([], width);
    assert [] + [(0, end)] == [(0, end)];
  }

  /** In insert mode, the last row has the column after the line, or a row of its own has the cursor. */
  lemma PlacedRows(editor: Editor, sourceRow: nat, line: seq<Grapheme>, width: nat, rows: seq<Row>, i: nat)
    requires width > 0 && line != [] && editor.insert && rows != []
    requires forall row :: row in rows ==> row == RowOf(row.glyphs, sourceRow, width)
    requires sourceRow == editor.row && IsAfter(editor, line) ==> forall row :: row in rows ==> row.cursor == None
    requires i < |PlaceEnd(rows, sourceRow, LineChars(line), width, sourceRow == editor.row && IsAfter(editor, line))|
    ensures IsLineRow(editor, sourceRow, line, width,
                PlaceEnd(rows, sourceRow, LineChars(line), width, sourceRow == editor.row && IsAfter(editor, line)), i)
  {
    var hasCursor := sourceRow == editor.row && IsAfter(editor, line);
    hide HasPositions, ShowsItsCursor, RowCursor, RowPositions, ArePositions, LineChars;
    if i == |rows| {
      OwnRow(sourceRow, width, LineChars(line));
    } else {
      assert rows[i] in rows;
      RowOfIs(rows[i].glyphs, sourceRow, width);
      EndedRow(rows[i].glyphs, sourceRow, width, LineChars(line), hasCursor);
    }
  }

  lemma {:induction false} NoneShown(rows: seq<Row>)
    requires Cursors(rows) == 0
    ensures forall row :: row in rows ==> row.cursor == None
  {
    if rows != [] {
      NoneShown(rows[1..]);
      assert forall row :: row in rows ==> row == rows[0] || row in rows[1..];
    }
  }

  lemma CursorAfterLine(glyphs: seq<Glyph>, line: seq<Grapheme>, sourceRow: nat, width: nat, cursor: Option<nat>)
    requires width > 0 && glyphs == Glyphs(line, width, cursor) && cursor == Some(LineChars(line))
    ensures forall row :: row in RowsFrom(glyphs, 0, sourceRow, width) ==> row.cursor == None
  {
    LineHoldsCursor(line, width, cursor);
    assert glyphs[0..] == glyphs;
    RowsShowCursor(glyphs, 0, sourceRow, width);
    NoneShown(RowsFrom(glyphs, 0, sourceRow, width));
  }

  /** Every row of a line, its columns and its cursor. */
  lemma {:induction false} LineRowIs(editor: Editor, sourceRow: nat, line: seq<Grapheme>, width: nat, i: nat)
    requires width > 0 && i < |Wrapped(editor, sourceRow, line, width)|
    ensures IsLineRow(editor, sourceRow, line, width, Wrapped(editor, sourceRow, line, width), i)
  {
    var cursor := LineCursor(editor, sourceRow, line);
    if line == [] {
      PositionsAre([], width);
      assert [] + [(0, 0)] == [(0, 0)];
    } else {
      var glyphs := Glyphs(line, width, cursor);
      var rows := RowsFrom(glyphs, 0, sourceRow, width);
      RowsAreOf(glyphs, 0, sourceRow, width);
      if editor.insert {
        if cursor == Some(LineChars(line)) {
          CursorAfterLine(glyphs, line, sourceRow, width, cursor);
        }
        assert cursor == Some(LineChars(line)) <==> sourceRow == editor.row && IsAfter(editor, line);
        PlacedRows(editor, sourceRow, line, width, rows, i);
      } else {
        assert rows[i] in rows;
        RowOfIs(rows[i].glyphs, sourceRow, width);
      }
    }
  }

  /** Insert mode gives the cursor after a line a row of its own only when the last row is full. */
  lemma {:induction false} OwnRowIsNeeded(editor: Editor, sourceRow: nat, line: seq<Grapheme>, width: nat)
    requires width > 0 && line != []
    ensures var rows := Wrapped(editor, sourceRow, line, width);
      && rows != []
      && (rows[|rows| - 1].glyphs == [] ==>
            && sourceRow == editor.row && editor.insert && editor.column >= LineChars(line)
            && |rows| > 1 && Sum(rows[|rows| - 2].glyphs) >= width)
  {
    RowsHoldGlyphs(Glyphs(line, width, LineCursor(editor, sourceRow, line)), 0, sourceRow, width);
  }

  lemma {:induction false} RowsHoldGlyphs(glyphs: seq<Glyph>, start: nat, sourceRow: nat, width: nat)
    requires Fitting(glyphs, width) && start <= |glyphs|
    ensures forall row :: row in RowsFrom(glyphs, start, sourceRow, width) ==> row.glyphs != []
    decreases |glyphs| - start
  {
    if start < |glyphs| {
      RowEndIs(glyphs, start, width);
      RowsHoldGlyphs(glyphs, RowEnd(glyphs, start, width), sourceRow, width);
    }
  }

  // The document.

  /** The line the cursor is on. */
  function CursorLine(editor: Editor): seq<Grapheme> {
    if editor.row < |editor.lines| then editor.lines[editor.row] else []
  }

  /**
   The row shows the editor's cursor: on the line's character that the cursor is on, or after the line at
   the end of the row.
   */
  ghost predicate ShowsCursor(editor: Editor, width: nat, row: Row)
    requires width > 0
  {
    var line := CursorLine(editor);
    row.sourceRow == editor.row &&
    if IsAfter(editor, line) then row.cursor == Some(Sum(row.glyphs)) && Sum(row.glyphs) < width
    else
      exists at: nat, k: nat ::
        ShowsGlyph(row, width, at) && k < |line| && IsUnderCursor(editor, line, k)
        && IsGlyphOf(line, k, width, row.glyphs[at])
  }

  lemma {:induction false} InAllGlyphs(rows: seq<Row>, i: nat, at: nat)
    requires i < |rows| && at < |rows[i].glyphs|
    ensures rows[i].glyphs[at] in AllGlyphs(rows)
  {
    if i > 0 {
      assert rows[1..][i - 1] == rows[i];
      InAllGlyphs(rows[1..], i - 1, at);
    }
  }

  lemma {:induction false} LineShowsCursor(editor: Editor, line: seq<Grapheme>, width: nat, i: nat)
    requires width > 0 && Graphemes(line) && line == CursorLine(editor)
    requires var rows := Wrapped(editor, editor.row, line, width); i < |rows| && rows[i].cursor.Some?
    ensures ShowsCursor(editor, width, Wrapped(editor, editor.row, line, width)[i])
  {
    var rows := Wrapped(editor, editor.row, line, width);
    LineRowIs(editor, editor.row, line, width, i);
    WrappedKeepsCursorInside(editor, editor.row, line, width);
    assert rows[i] in rows;
    if !IsAfter(editor, line) {
      hide Wrapped, Sum;
      var at: nat :| ShowsGlyph(rows[i], width, at);
      InAllGlyphs(rows, i, at);
      var k: nat :| k < |AllGlyphs(rows)| && AllGlyphs(rows)[k] == rows[i].glyphs[at];
      WrappedKeepsGlyphs(editor, editor.row, line, width);
      LineGlyphIs(editor, editor.row, line, width, k);
    }
  }

  lemma {:induction false} OfFlatten(blocks: seq<seq<Row>>, row: Row) returns (i: nat, j: nat)
    requires row in Flatten(blocks)
    ensures i < |blocks| && j < |blocks[i]| && blocks[i][j] == row
  {
    var before, last := blocks[..|blocks| - 1], blocks[|blocks| - 1];
    if row in last {
      i := |blocks| - 1;
      j :| 0 <= j < |last| && last[j] == row;
    } else {
      i, j := OfFlatten(before, row);
    }
  }

  /** The one row of the document that shows a cursor shows the editor's. */
  lemma {:induction false} DocumentShowsEditorsCursor(editor: Editor, areaWidth: nat, row: Row)
    requires IsEditor(editor) && row in DocumentRows(editor, areaWidth) && row.cursor.Some?
    ensures ShowsCursor(editor, AtLeastOne(areaWidth), row)
  {
    var width := AtLeastOne(areaWidth);
    var blocks := LineRows(editor, width);
    if Flatten(blocks) == [] {
      LinesShowCursor(editor, width);
      BlocksShowCursor(blocks, editor.row);
      assert editor.lines == [];
      var j: nat :| j < |Wrapped(editor, 0, [], width)| && Wrapped(editor, 0, [], width)[j] == row;
      LineShowsCursor(editor, [], width, j);
    } else {
      var i, j := OfFlatten(blocks, row);
      LineRowIs(editor, i, editor.lines[i], width, j);
      LinesShowCursor(editor, width);
      if i != editor.row {
        NotShown(blocks[i], j);
      }
      LineShowsCursor(editor, editor.lines[i], width, j);
    }
  }

  lemma {:induction false} NotShown(rows: seq<Row>, j: nat)
    requires j < |rows| && rows[j].cursor.Some?
    ensures Cursors(rows) > 0
  {
    if j > 0 {
      assert rows[1..][j - 1] == rows[j];
      NotShown(rows[1..], j - 1);
    }
  }
}
