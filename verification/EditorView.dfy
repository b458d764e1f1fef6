/**
 What holds of the rows of a comment editor, and the viewport that shows them
 (`crates/comment-editor/src/view.rs`).
 */
module EditorView {
  import opened Common
  import opened Wrappers
  import opened EditorWrap

  // The rows partition the glyphs.

  function AllGlyphs(rows: seq<Row>): seq<Glyph> {
    if rows == [] then [] else rows[0].glyphs + AllGlyphs(rows[1..])
  }

  lemma {:induction false} AllGlyphsOfBoth(a: seq<Row>, b: seq<Row>)
    ensures AllGlyphs(a + b) == AllGlyphs(a) + AllGlyphs(b)
    decreases |a|
  {
    if a == [] {
      assert a + b == b;
    } else {
      assert (a + b)[1..] == a[1..] + b;
      AllGlyphsOfBoth(a[1..], b);
      assert a[0].glyphs + (AllGlyphs(a[1..]) + AllGlyphs(b)) == a[0].glyphs + AllGlyphs(a[1..]) + AllGlyphs(b);
    }
  }

  lemma {:induction false} RowsPartition(glyphs: seq<Glyph>, start: nat, sourceRow: nat, width: nat)
    requires Fitting(glyphs, width) && start <= |glyphs|
    ensures AllGlyphs(RowsFrom(glyphs, start, sourceRow, width)) == glyphs[start..]
    decreases |glyphs| - start
  {
    if start < |glyphs| {
      RowEndIs(glyphs, start, width);
      var end := RowEnd(glyphs, start, width);
      RowsPartition(glyphs, end, sourceRow, width);
      assert glyphs[start..end] + glyphs[end..] == glyphs[start..];
    }
  }

  /** Each row of `rows`, from `start` on, is a row of `glyphs` that starts where the one before ends. */
  ghost predicate AreRows(rows: seq<Row>, glyphs: seq<Glyph>, start: nat, width: nat)
    decreases |rows|
  {
    if rows == [] then start == |glyphs|
    else
      var end := start + |rows[0].glyphs|;
      && start < end <= |glyphs| && rows[0].glyphs == glyphs[start..end] && IsRow(glyphs, start, end, width)
      && AreRows(rows[1..], glyphs, end, width)
  }

  lemma FirstIsRow(row: Row, more: seq<Row>, glyphs: seq<Glyph>, start: nat, end: nat, width: nat)
    requires start < end <= |glyphs| && row.glyphs == glyphs[start..end] && IsRow(glyphs, start, end, width)
    requires AreRows(more, glyphs, end, width)
    ensures AreRows([row] + more, glyphs, start, width)
  {
    assert ([row] + more)[1..] == more;
  }

  lemma {:induction false} RowsAreRows(glyphs: seq<Glyph>, start: nat, sourceRow: nat, width: nat)
    requires Fitting(glyphs, width) && start <= |glyphs|
    ensures AreRows(RowsFrom(glyphs, start, sourceRow, width), glyphs, start, width)
    decreases |glyphs| - start
  {
    if start < |glyphs| {
      RowEndIs(glyphs, start, width);
      var end := RowEnd(glyphs, start, width);
      var more := RowsFrom(glyphs, end, sourceRow, width);
      RowsAreRows(glyphs, end, sourceRow, width);
      FirstIsRow(RowOf(glyphs[start..end], sourceRow, width), more, glyphs, start, end, width);
    }
  }

  lemma PlaceEndKeepsGlyphs(rows: seq<Row>, sourceRow: nat, sourceColumn: nat, width: nat, hasCursor: bool)
    ensures AllGlyphs(PlaceEnd(rows, sourceRow, sourceColumn, width, hasCursor)) == AllGlyphs(rows)
  {
    var placed := PlaceEnd(rows, sourceRow, sourceColumn, width, hasCursor);
    if rows != [] {
      var n := |rows| - 1;
      AllGlyphsOfBoth(rows[..n], [rows[n]]);
      assert rows == rows[..n] + [rows[n]];
      if |placed| == |rows| {
        AllGlyphsOfBoth(placed[..n], [placed[n]]);
        assert placed == placed[..n] + [placed[n]] && placed[..n] == rows[..n];
      } else {
        AllGlyphsOfBoth(rows, placed[n + 1..]);
        assert placed == rows + placed[n + 1..];
      }
    }
  }

  /** The rows of a line, in order, are its glyphs. */
  lemma {:induction false} WrappedKeepsGlyphs(editor: Editor, sourceRow: nat, line: seq<Grapheme>, width: nat)
    requires width > 0
    ensures AllGlyphs(Wrapped(editor, sourceRow, line, width))
         == Glyphs(line, width, LineCursor(editor, sourceRow, line))
  {
    var cursor := LineCursor(editor, sourceRow, line);
    if line != [] {
      var glyphs := Glyphs(line, width, cursor);
      var rows := RowsFrom(glyphs, 0, sourceRow, width);
      RowsPartition(glyphs, 0, sourceRow, width);
      PlaceEndKeepsGlyphs(rows, sourceRow, LineChars(line), width, cursor == Some(LineChars(line)));
      assert glyphs[0..] == glyphs;
    }
  }

  // The cursor.

  function CursorGlyphs(glyphs: seq<Glyph>): nat {
    if glyphs == [] then 0
    else CursorGlyphs(glyphs[..|glyphs| - 1]) + if glyphs[|glyphs| - 1].cursor then 1 else 0
  }

  /** How many rows show the cursor. */
  function Cursors(rows: seq<Row>): nat {
    if rows == [] then 0 else (if rows[0].cursor.Some? then 1 else 0) + Cursors(rows[1..])
  }

  lemma {:induction false} CursorsOfBoth(a: seq<Row>, b: seq<Row>)
    ensures Cursors(a + b) == Cursors(a) + Cursors(b)
    decreases |a|
  {
    if a == [] {
      assert a + b == b;
    } else {
      assert (a + b)[1..] == a[1..] + b;
      CursorsOfBoth(a[1..], b);
    }
  }

  lemma {:induction false} CursorGlyphsSplit(glyphs: seq<Glyph>, a: nat, b: nat, c: nat)
    requires a <= b <= c <= |glyphs|
    ensures CursorGlyphs(glyphs[a..c]) == CursorGlyphs(glyphs[a..b]) + CursorGlyphs(glyphs[b..c])
    decreases c - b
  {
    if b == c {
      assert glyphs[b..c] == [];
    } else {
      CursorGlyphsSplit(glyphs, a, b, c - 1);
      assert glyphs[a..c][..c - 1 - a] == glyphs[a..c - 1];
      assert glyphs[b..c][..c - 1 - b] == glyphs[b..c - 1];
    }
  }

  /** One glyph of a line holds the cursor, unless the cursor is elsewhere or after the line. */
  lemma {:induction false} LineHoldsCursor(line: seq<Grapheme>, width: nat, cursor: Option<nat>)
    requires width > 0
    ensures CursorGlyphs(Glyphs(line, width, cursor)) == if cursor.Some? && cursor.value < LineChars(line) then 1 else 0
    decreases |line|
  {
    if line != [] {
      LineHoldsCursor(line[..|line| - 1], width, cursor);
      var glyphs := Glyphs(line, width, cursor);
      assert glyphs[..|glyphs| - 1] == Glyphs(line[..|line| - 1], width, cursor);
    }
  }

  lemma {:induction false} RowShowsCursor(glyphs: seq<Glyph>, width: nat)
    requires width > 0
    ensures RowCursor(glyphs, width).Some? <==> CursorGlyphs(glyphs) > 0
    decreases |glyphs|
  {
    if glyphs != [] {
      RowShowsCursor(glyphs[..|glyphs| - 1], width);
    }
  }

  lemma {:induction false} RowsShowCursor(glyphs: seq<Glyph>, start: nat, sourceRow: nat, width: nat)
    requires Fitting(glyphs, width) && start <= |glyphs| && CursorGlyphs(glyphs[start..]) <= 1
    ensures Cursors(RowsFrom(glyphs, start, sourceRow, width)) == CursorGlyphs(glyphs[start..])
    decreases |glyphs| - start
  {
    if start < |glyphs| {
      RowEndIs(glyphs, start, width);
      var end := RowEnd(glyphs, start, width);
      CursorGlyphsSplit(glyphs, start, end, |glyphs|);
      assert glyphs[start..|glyphs|] == glyphs[start..] && glyphs[end..|glyphs|] == glyphs[end..];
      RowShowsCursor(glyphs[start..end], width);
      RowsShowCursor(glyphs, end, sourceRow, width);
    }
  }

  lemma PlaceEndShowsCursor(rows: seq<Row>, sourceRow: nat, sourceColumn: nat, width: nat, hasCursor: bool)
    requires rows != [] && (hasCursor ==> Cursors(rows) == 0)
    ensures Cursors(PlaceEnd(rows, sourceRow, sourceColumn, width, hasCursor))
         == Cursors(rows) + if hasCursor then 1 else 0
  {
    var placed := PlaceEnd(rows, sourceRow, sourceColumn, width, hasCursor);
    var n := |rows| - 1;
    CursorsOfBoth(rows[..n], [rows[n]]);
    assert rows == rows[..n] + [rows[n]];
    if |placed| == |rows| {
      CursorsOfBoth(placed[..n], [placed[n]]);
      assert placed == placed[..n] + [placed[n]] && placed[..n] == rows[..n];
    } else {
      CursorsOfBoth(rows, placed[n + 1..]);
      assert placed == rows + placed[n + 1..];
    }
  }

  lemma WrappedShowsCursor(editor: Editor, sourceRow: nat, line: seq<Grapheme>, width: nat)
    requires width > 0 && Graphemes(line)
    ensures Wrapped(editor, sourceRow, line, width) != []
    ensures Cursors(Wrapped(editor, sourceRow, line, width)) == if sourceRow == editor.row then 1 else 0
  {
    var cursor := LineCursor(editor, sourceRow, line);
    if line == [] {
      assert Wrapped(editor, sourceRow, line, width)[1..] == [];
    } else {
      var glyphs := Glyphs(line, width, cursor);
      assert LineChars(line) > 0;
      LineHoldsCursor(line, width, cursor);
      assert glyphs[0..] == glyphs;
      RowsShowCursor(glyphs, 0, sourceRow, width);
      if editor.insert {
        PlaceEndShowsCursor(
          RowsFrom(glyphs, 0, sourceRow, width), sourceRow, LineChars(line), width, cursor == Some(LineChars(line)));
      }
    }
  }

  lemma {:induction false} BlocksShowCursor(blocks: seq<seq<Row>>, row: nat)
    requires forall i :: 0 <= i < |blocks| ==> blocks[i] != [] && Cursors(blocks[i]) == if i == row then 1 else 0
    ensures blocks != [] ==> Flatten(blocks) != []
    ensures Cursors(Flatten(blocks)) == if row < |blocks| then 1 else 0
  {
    if blocks != [] {
      var before := blocks[..|blocks| - 1];
      BlocksShowCursor(before, row);
      CursorsOfBoth(Flatten(before), blocks[|blocks| - 1]);
    }
  }

  /** The lines of an editor, and a cursor on one of them, or on the first when there is none. */
  ghost predicate IsEditor(editor: Editor) {
    && (forall i :: 0 <= i < |editor.lines| ==> Graphemes(editor.lines[i]))
    && (editor.row < |editor.lines| || (editor.row == 0 && editor.lines == []))
  }

  lemma LinesShowCursor(editor: Editor, width: nat)
    requires width > 0 && IsEditor(editor)
    ensures forall i :: 0 <= i < |editor.lines| ==>
              var rows := LineRows(editor, width)[i]; rows != [] && Cursors(rows) == if i == editor.row then 1 else 0
  {
    forall i | 0 <= i < |editor.lines|
      ensures var rows := LineRows(editor, width)[i]; rows != [] && Cursors(rows) == if i == editor.row then 1 else 0
    {
      WrappedShowsCursor(editor, i, editor.lines[i], width);
    }
  }

  /** Exactly one row of the document shows the cursor. */
  lemma {:induction false} DocumentShowsCursor(editor: Editor, areaWidth: nat)
    requires IsEditor(editor)
    ensures Cursors(DocumentRows(editor, areaWidth)) == 1
  {
    LinesShowCursor(editor, AtLeastOne(areaWidth));
    BlocksShowCursor(LineRows(editor, AtLeastOne(areaWidth)), editor.row);
    if editor.lines == [] {
      WrappedShowsCursor(editor, 0, [], AtLeastOne(areaWidth));
    }
  }

  /** The cursor's column in its row is on screen, and the width of the glyphs before it there. */
  ghost predicate CursorInside(row: Row, width: nat) {
    row.cursor.Some? ==> row.cursor.value < width
  }

  lemma {:induction false} RowsKeepCursorInside(glyphs: seq<Glyph>, start: nat, sourceRow: nat, width: nat)
    requires Fitting(glyphs, width) && start <= |glyphs|
    ensures forall row :: row in RowsFrom(glyphs, start, sourceRow, width) ==>
              CursorInside(row, width) && row.sourceRow == sourceRow
    decreases |glyphs| - start
  {
    if start < |glyphs| {
      RowEndIs(glyphs, start, width);
      RowsKeepCursorInside(glyphs, RowEnd(glyphs, start, width), sourceRow, width);
    }
  }

  lemma WrappedKeepsCursorInside(editor: Editor, sourceRow: nat, line: seq<Grapheme>, width: nat)
    requires width > 0
    ensures forall row :: row in Wrapped(editor, sourceRow, line, width) ==>
              CursorInside(row, width) && row.sourceRow == sourceRow
  {
    if line != [] {
      RowsKeepCursorInside(Glyphs(line, width, LineCursor(editor, sourceRow, line)), 0, sourceRow, width);
    }
  }

  ghost predicate InOrder(rows: seq<Row>) {
    forall i, j :: 0 <= i <= j < |rows| ==> rows[i].sourceRow <= rows[j].sourceRow
  }

  lemma {:induction false} BlocksInOrder(blocks: seq<seq<Row>>, width: nat)
    requires forall i, row :: 0 <= i < |blocks| && row in blocks[i] ==> CursorInside(row, width) && row.sourceRow == i
    ensures forall row :: row in Flatten(blocks) ==> CursorInside(row, width) && row.sourceRow < |blocks|
    ensures InOrder(Flatten(blocks))
  {
    if blocks != [] {
      var before := blocks[..|blocks| - 1];
      BlocksInOrder(before, width);
    }
  }

  lemma LinesKeepCursorInside(editor: Editor, width: nat)
    requires width > 0
    ensures var blocks := LineRows(editor, width);
      forall i, row :: 0 <= i < |blocks| && row in blocks[i] ==> CursorInside(row, width) && row.sourceRow == i
  {
    forall i | 0 <= i < |editor.lines|
      ensures forall row :: row in LineRows(editor, width)[i] ==> CursorInside(row, width) && row.sourceRow == i
    {
      WrappedKeepsCursorInside(editor, i, editor.lines[i], width);
    }
  }

  /** The rows of a document are in the order of its lines, the cursor inside its row. */
  lemma {:induction false} DocumentInOrder(editor: Editor, areaWidth: nat)
    ensures DocumentRows(editor, areaWidth) != [] && InOrder(DocumentRows(editor, areaWidth))
    ensures forall row :: row in DocumentRows(editor, areaWidth) ==> CursorInside(row, AtLeastOne(areaWidth))
  {
    var width := AtLeastOne(areaWidth);
    LinesKeepCursorInside(editor, width);
    BlocksInOrder(LineRows(editor, width), width);
    WrappedKeepsCursorInside(editor, 0, [], width);
  }

  lemma {:induction false} RowCursorAt(glyphs: seq<Glyph>, width: nat, at: nat)
    requires width > 0 && at < |glyphs| && glyphs[at].cursor && CursorGlyphs(glyphs) == 1
    ensures RowCursor(glyphs, width) == Some(Min(Sum(glyphs[..at]), width - 1))
    decreases |glyphs|
  {
    var before := glyphs[..|glyphs| - 1];
    if at < |glyphs| - 1 {
      CursorCounted(before, at);
      RowCursorAt(before, width, at);
      assert before[..at] == glyphs[..at];
    }
  }

  lemma {:induction false} CursorCounted(glyphs: seq<Glyph>, at: nat)
    requires at < |glyphs| && glyphs[at].cursor
    ensures CursorGlyphs(glyphs) >= 1
    decreases |glyphs|
  {
    if at < |glyphs| - 1 {
      CursorCounted(glyphs[..|glyphs| - 1], at);
    }
  }

  lemma CursorFits(glyphs: seq<Glyph>, start: nat, end: nat, at: nat, width: nat)
    requires start <= at < end <= |glyphs| && IsRow(glyphs, start, end, width)
    requires glyphs[at].cursor && glyphs[at].width > 0
    ensures Sum(glyphs[start..at]) < width
  {
    var fit :| start < fit <= end && IsFit(glyphs, start, fit, end, width);
    assert at < fit;
    SumSplit(glyphs, start, at + 1, fit);
    assert glyphs[start..at + 1][..at - start] == glyphs[start..at];
  }

  /** In its row, the cursor is exactly where its glyph starts, when the glyph is wide enough to see. */
  lemma {:induction false} CursorColumnIsExact(glyphs: seq<Glyph>, start: nat, end: nat, at: nat, width: nat)
    requires width > 0 && start <= at < end <= |glyphs| && IsRow(glyphs, start, end, width)
    requires glyphs[at].cursor && glyphs[at].width > 0 && CursorGlyphs(glyphs[start..end]) == 1
    ensures RowCursor(glyphs[start..end], width) == Some(Sum(glyphs[start..at]))
  {
    CursorFits(glyphs, start, end, at, width);
    RowCursorAt(glyphs[start..end], width, at - start);
    assert glyphs[start..end][..at - start] == glyphs[start..at];
  }

  // The viewport.

  /** The index of the first row that shows the cursor. */
  function CursorRow(rows: seq<Row>): (r: nat)
    ensures rows != [] ==> r < |rows|
    ensures Cursors(rows) > 0 ==> r < |rows| && rows[r].cursor.Some?
  {
    if rows == [] || rows[0].cursor.Some? then 0
    else if Cursors(rows[1..]) > 0 then 1 + CursorRow(rows[1..])
    else 0
  }

  /** The first row of the lines from `sourceRow` on, or `otherwise` when there is none. */
  predicate IsFirstFrom(rows: seq<Row>, sourceRow: nat, otherwise: nat, r: nat) {
    && (r == otherwise || (r < |rows| && rows[r].sourceRow >= sourceRow))
    && forall i :: 0 <= i < |rows| && rows[i].sourceRow >= sourceRow ==>
         r <= i && r < |rows| && rows[r].sourceRow >= sourceRow
  }

  /** Whether the row of the cursor is on screen, or the first row when the screen has none. */
  predicate Sees(top: nat, cursorRow: nat, areaHeight: nat) {
    top <= cursorRow && (cursorRow - top < areaHeight || cursorRow == top)
  }

  function Distance(a: nat, b: nat): nat {
    if a < b then b - a else a - b
  }

  /** The row on top is the nearest to the one wanted that leaves the row of the cursor on screen. */
  ghost predicate IsNearest(top: nat, wanted: nat, cursorRow: nat, areaHeight: nat) {
    && Sees(top, cursorRow, areaHeight)
    && forall other: nat :: Sees(other, cursorRow, areaHeight) ==> Distance(top, wanted) <= Distance(other, wanted)
  }

  /** Where rows are scrolled: as they were, or to the line asked for when that is another. */
  ghost predicate Scrolled(rows: seq<Row>, before: nat, sourceTop: nat, requestedTop: nat, areaHeight: nat, top: nat) {
    exists wanted: nat :: IsNearest(top, wanted, CursorRow(rows), areaHeight)
      && if requestedTop == sourceTop then wanted == before
         else IsFirstFrom(rows, requestedTop, CursorRow(rows), wanted)
  }

  class EditorViewport {
    var top: nat
    var sourceTop: nat
    var width: nat
    var height: nat
    var hasGoal: bool

    constructor ()
      ensures top == 0 && sourceTop == 0 && width == 0 && height == 0 && !hasGoal
    {
      top, sourceTop, width, height, hasGoal := 0, 0, 0, 0, false;
    }

    /** The first row of the lines from `sourceRow` on, or `otherwise`. */
    method FirstFrom(rows: seq<Row>, sourceRow: nat, otherwise: nat) returns (r: nat)
      ensures IsFirstFrom(rows, sourceRow, otherwise, r)
    {
      for index := 0 to |rows|
        invariant forall i :: 0 <= i < index ==> rows[i].sourceRow < sourceRow
      {
        if rows[index].sourceRow >= sourceRow {
          return index;
        }
      }
      return otherwise;
    }

    method FindCursor(rows: seq<Row>) returns (r: nat)
      ensures r == CursorRow(rows)
    {
      r := 0;
      while r < |rows| && rows[r].cursor == None
        invariant r <= |rows|
        invariant Cursors(rows) == Cursors(rows[r..])
        invariant Cursors(rows[r..]) > 0 ==> CursorRow(rows) == r + CursorRow(rows[r..])
      {
        assert rows[r..][1..] == rows[r + 1..];
        r := r + 1;
      }
      if r == |rows| {
        assert rows[r..] == [];
        r := 0;
      } else {
        assert rows[r..][0].cursor.Some?;
      }
    }

    /** Scrolls `rows` to the line asked for, and so that the row of the cursor is on screen. */
    method Scroll(rows: seq<Row>, cursorRow: nat, requestedTop: nat, areaHeight: nat)
      requires cursorRow == CursorRow(rows) < |rows|
      modifies this`top
      ensures Sees(top, cursorRow, areaHeight)
      ensures Scrolled(rows, old(top), sourceTop, requestedTop, areaHeight, top)
    {
      if requestedTop != sourceTop {
        top := FirstFrom(rows, requestedTop, cursorRow);
      }
      ghost var wanted := top;
      var room := if areaHeight == 0 then 0 else areaHeight - 1;
      top := if top <= cursorRow then top else cursorRow;
      top := if cursorRow >= room && top < cursorRow - room then cursorRow - room else top;
      assert IsNearest(top, wanted, cursorRow, areaHeight);
    }

    /** Shows `rows`, scrolled, and tells the first line shown and how many lines are shown. */
    method Show(rows: seq<Row>, requestedTop: nat, areaHeight: nat)
      returns (visible: seq<Row>, offset: nat, lines: nat)
      requires rows != [] && Cursors(rows) == 1 && InOrder(rows)
      modifies this`top, this`sourceTop
      ensures Shows(rows, visible, top, areaHeight)
      ensures areaHeight > 0 ==> visible != [] && offset == sourceTop == visible[0].sourceRow
      ensures areaHeight > 0 ==> lines == visible[|visible| - 1].sourceRow - visible[0].sourceRow + 1
      ensures areaHeight == 0 ==> sourceTop == old(sourceTop) && offset == requestedTop
      ensures Scrolled(rows, old(top), old(sourceTop), requestedTop, areaHeight, top)
    {
      var cursorRow := FindCursor(rows);
      Scroll(rows, cursorRow, requestedTop, areaHeight);
      visible := rows[top..Min(|rows|, top + areaHeight)];
      offset, lines := requestedTop, 0;
      if visible != [] {
        sourceTop := visible[0].sourceRow;
        offset := sourceTop;
        lines := visible[|visible| - 1].sourceRow - visible[0].sourceRow + 1;
      }
    }

    /** The rows of `editor`, and those shown of them when it asks for the line `requestedTop` first. */
    method Render(editor: Editor, requestedTop: nat, areaWidth: nat, areaHeight: nat)
      returns (rows: seq<Row>, visible: seq<Row>, offset: nat, lines: nat)
      requires IsEditor(editor)
      modifies this
      ensures rows == DocumentRows(editor, areaWidth)
      ensures Shows(rows, visible, top, areaHeight)
      ensures width == areaWidth && height == areaHeight && hasGoal == (old(hasGoal) && old(width) == areaWidth)
      ensures areaHeight > 0 ==> visible != [] && offset == sourceTop == visible[0].sourceRow
      ensures areaHeight > 0 ==> lines == visible[|visible| - 1].sourceRow - visible[0].sourceRow + 1
      ensures areaHeight == 0 ==> sourceTop == old(sourceTop) && offset == requestedTop
      ensures Scrolled(rows, old(top), old(sourceTop), requestedTop, areaHeight, top)
    {
      if width != areaWidth {
        hasGoal := false;
      }
      width := areaWidth;
      height := areaHeight;
      rows := Document(editor, areaWidth);
      DocumentShowsCursor(editor, areaWidth);
      DocumentInOrder(editor, areaWidth);
      visible, offset, lines := Show(rows, requestedTop, areaHeight);
    }
  }

  /** `visible` are the rows from `top` on that `areaHeight` holds, with the row of the cursor among them. */
  ghost predicate Shows(rows: seq<Row>, visible: seq<Row>, top: nat, areaHeight: nat) {
    var cursorRow := CursorRow(rows);
    && cursorRow < |rows| && rows[cursorRow].cursor.Some? && top <= cursorRow
    && visible == rows[top..Min(|rows|, top + areaHeight)]
    && |visible| <= areaHeight
    && (areaHeight > 0 ==> cursorRow - top < |visible| && visible[cursorRow - top] == rows[cursorRow])
  }

}
