/**
 `crates/comment-editor/src/view.rs`: the rows a comment editor shows, wrapped at words.

 A line is its graphemes, of which only the widths and kinds matter; styles are left out.
 */
module EditorWrap {
  import opened Common
  import opened Wrappers

  /** A grapheme of `chars` characters: a tab, or a symbol of a display width. */
  datatype Grapheme = Tab | Symbol(chars: nat, width: nat, whitespace: bool)

  datatype Glyph = Glyph(width: nat, whitespace: bool, cursor: bool, sourceColumn: nat)

  /** One display row; `positions` are its columns on screen, each with its column in the line. */
  datatype Row = Row(glyphs: seq<Glyph>, sourceRow: nat, cursor: Option<nat>, positions: seq<(nat, nat)>)

  datatype Editor = Editor(lines: seq<seq<Grapheme>>, row: nat, column: nat, insert: bool)

  function Chars(g: Grapheme): nat {
    if g.Tab? then 1 else g.chars
  }

  function LineChars(line: seq<Grapheme>): nat {
    if line == [] then 0 else LineChars(line[..|line| - 1]) + Chars(line[|line| - 1])
  }

  ghost predicate Graphemes(line: seq<Grapheme>) {
    forall i :: 0 <= i < |line| ==> Chars(line[i]) > 0
  }

  function Sum(glyphs: seq<Glyph>): nat {
    if glyphs == [] then 0 else Sum(glyphs[..|glyphs| - 1]) + glyphs[|glyphs| - 1].width
  }

  // Glyphs.

  /** The glyph of `g`: a tab is two spaces, and what is wider than the row a replacement character. */
  function NewGlyph(g: Grapheme, width: nat, cursor: bool, sourceColumn: nat): (r: Glyph)
    requires width > 0
    ensures r.width <= width
  {
    match g
    case Tab => Glyph(Min(2, width), true, cursor, sourceColumn)
    case Symbol(_, symbolWidth, whitespace) =>
      Glyph(if symbolWidth > width then 1 else symbolWidth, whitespace, cursor, sourceColumn)
  }

  predicate Covers(column: nat, chars: nat, cursor: Option<nat>) {
    cursor.Some? && column <= cursor.value < column + chars
  }

  function Glyphs(line: seq<Grapheme>, width: nat, cursor: Option<nat>): (r: seq<Glyph>)
    requires width > 0
    ensures |r| == |line|
    ensures forall i :: 0 <= i < |r| ==> r[i].width <= width
  {
    if line == [] then []
    else
      var column := LineChars(line[..|line| - 1]);
      var last := line[|line| - 1];
      Glyphs(line[..|line| - 1], width, cursor) + [NewGlyph(last, width, Covers(column, Chars(last), cursor), column)]
  }

  method MakeGlyphs(line: seq<Grapheme>, width: nat, cursor: Option<nat>) returns (glyphs: seq<Glyph>)
    requires width > 0
    ensures glyphs == Glyphs(line, width, cursor)
  {
    var column := 0;
    glyphs := [];
    for index := 0 to |line|
      invariant column == LineChars(line[..index])
      invariant glyphs == Glyphs(line[..index], width, cursor)
    {
      assert line[..index + 1][..index] == line[..index];
      var end := column + Chars(line[index]);
      glyphs := glyphs + [NewGlyph(line[index], width, Covers(column, Chars(line[index]), cursor), column)];
      column := end;
    }
    assert line[..|line|] == line;
  }

  // Where a row ends.

  /** The end of the glyphs from `start` that fit, at least one of them, from `end` with `used` taken. */
  function FitEnd(glyphs: seq<Glyph>, start: nat, width: nat, end: nat, used: nat): (r: nat)
    requires start <= end <= |glyphs|
    ensures end <= r <= |glyphs|
    decreases |glyphs| - end
  {
    if end == |glyphs| || (used + glyphs[end].width > width && end > start) then end
    else FitEnd(glyphs, start, width, end + 1, used + glyphs[end].width)
  }

  /** The end of the last white space in `glyphs[start..end]`. */
  function LastBreak(glyphs: seq<Glyph>, start: nat, end: nat): (r: Option<nat>)
    requires start <= end <= |glyphs|
    ensures r.Some? ==> start < r.value <= end && glyphs[r.value - 1].whitespace
    ensures r.Some? ==> forall i :: r.value <= i < end ==> !glyphs[i].whitespace
    ensures r == None ==> forall i :: start <= i < end ==> !glyphs[i].whitespace
  {
    if end == start then None
    else if glyphs[end - 1].whitespace then Some(end)
    else LastBreak(glyphs, start, end - 1)
  }

  /** The end of the white space at `at`. */
  function SpacesEnd(glyphs: seq<Glyph>, at: nat): (r: nat)
    requires at <= |glyphs|
    ensures at <= r <= |glyphs|
    ensures forall i :: at <= i < r ==> glyphs[i].whitespace
    ensures r < |glyphs| ==> !glyphs[r].whitespace
    decreases |glyphs| - at
  {
    if at < |glyphs| && glyphs[at].whitespace then SpacesEnd(glyphs, at + 1) else at
  }

  predicate HoldsCursor(glyphs: seq<Glyph>, from: nat, to: nat)
    requires from <= to <= |glyphs|
  {
    exists i :: from <= i < to && glyphs[i].cursor
  }

  /** Where the row from `start` ends before the spaces that overflow it. */
  function BreakEnd(glyphs: seq<Glyph>, start: nat, width: nat): (r: nat)
    requires start < |glyphs|
    ensures r <= |glyphs|
  {
    var end := FitEnd(glyphs, start, width, start, 0);
    var boundary := LastBreak(glyphs, start, end);
    if end < |glyphs| && !glyphs[end].whitespace && boundary.Some? then boundary.value else end
  }

  function RowEnd(glyphs: seq<Glyph>, start: nat, width: nat): (r: nat)
    requires start < |glyphs|
    ensures r <= |glyphs|
  {
    var end := BreakEnd(glyphs, start, width);
    var spaces := SpacesEnd(glyphs, end);
    if HoldsCursor(glyphs, end, spaces) then end else spaces
  }

  method WrapEnd(glyphs: seq<Glyph>, start: nat, width: nat) returns (r: nat)
    requires start < |glyphs|
    ensures r == RowEnd(glyphs, start, width)
  {
    var end: nat, used: nat, boundary := start, 0, None;
    while end < |glyphs|
      invariant start <= end <= |glyphs|
      invariant boundary == LastBreak(glyphs, start, end)
      invariant FitEnd(glyphs, start, width, end, used) == FitEnd(glyphs, start, width, start, 0)
    {
      var glyph := glyphs[end];
      if used + glyph.width > width && end > start {
        break;
      }
      used := used + glyph.width;
      end := end + 1;
      if glyph.whitespace {
        boundary := Some(end);
      }
    }
    if end < |glyphs| && !glyphs[end].whitespace {
      end := if boundary.Some? then boundary.value else end;
    }
    var afterSpaces := end;
    while afterSpaces < |glyphs| && glyphs[afterSpaces].whitespace
      invariant end <= afterSpaces <= |glyphs|
      invariant SpacesEnd(glyphs, afterSpaces) == SpacesEnd(glyphs, end)
      invariant !HoldsCursor(glyphs, end, afterSpaces)
    {
      if glyphs[afterSpaces].cursor {
        return end;
      }
      afterSpaces := afterSpaces + 1;
    }
    return afterSpaces;
  }

  // What a row is.

  lemma {:induction false} SumSplit(glyphs: seq<Glyph>, a: nat, b: nat, c: nat)
    requires a <= b <= c <= |glyphs|
    ensures Sum(glyphs[a..c]) == Sum(glyphs[a..b]) + Sum(glyphs[b..c])
    decreases c - b
  {
    if b == c {
      assert glyphs[b..c] == [];
    } else {
      SumSplit(glyphs, a, b, c - 1);
      assert glyphs[a..c][..c - 1 - a] == glyphs[a..c - 1];
      assert glyphs[b..c][..c - 1 - b] == glyphs[b..c - 1];
    }
  }

  lemma {:induction false} FitEndIs(glyphs: seq<Glyph>, start: nat, width: nat, end: nat, used: nat)
    requires start <= end <= |glyphs| && start < |glyphs| && used == Sum(glyphs[start..end])
    requires glyphs[start].width <= width && used <= width
    ensures var r := FitEnd(glyphs, start, width, end, used);
      && start < r && Sum(glyphs[start..r]) <= width
      && (r < |glyphs| ==> Sum(glyphs[start..r + 1]) > width)
    decreases |glyphs| - end
  {
    if end < |glyphs| {
      assert glyphs[start..end + 1][..end - start] == glyphs[start..end];
      if !(used + glyphs[end].width > width && end > start) {
        FitEndIs(glyphs, start, width, end + 1, used + glyphs[end].width);
      }
    }
  }

  /** The end of the stretch from `at` that cannot be broken: one glyph, and no white space after it. */
  function StretchEnd(glyphs: seq<Glyph>, at: nat): (r: nat)
    requires at < |glyphs|
    ensures at < r <= |glyphs|
    ensures forall i :: at < i < r ==> !glyphs[i].whitespace
    ensures r < |glyphs| ==> glyphs[r].whitespace
    decreases |glyphs| - at
  {
    if at + 1 < |glyphs| && !glyphs[at + 1].whitespace then StretchEnd(glyphs, at + 1) else at + 1
  }

  /**
   A row: a part that fits, then only white space, which does not hold the cursor. It breaks inside a
   word only when it holds no white space and the next glyph does not fit, and it is as long as it
   can be: what cannot be broken after it does not fit.
   */
  ghost predicate IsRow(glyphs: seq<Glyph>, start: nat, end: nat, width: nat)
    requires start < end <= |glyphs|
  {
    && (exists fit :: start < fit <= end && IsFit(glyphs, start, fit, end, width))
    && (end < |glyphs| && !glyphs[end - 1].whitespace && !glyphs[end].whitespace ==>
          (forall i :: start <= i < end ==> !glyphs[i].whitespace) && Sum(glyphs[start..end + 1]) > width)
    && (end < |glyphs| ==> Sum(glyphs[start..StretchEnd(glyphs, end)]) > width)
  }

  ghost predicate IsFit(glyphs: seq<Glyph>, start: nat, fit: nat, end: nat, width: nat)
    requires start <= fit <= end <= |glyphs|
  {
    Sum(glyphs[start..fit]) <= width && forall i :: fit <= i < end ==> glyphs[i].whitespace && !glyphs[i].cursor
  }

  /** Where a row breaks among the glyphs that fit: where they end, or after their last white space. */
  lemma {:induction false} BreakEndIs(glyphs: seq<Glyph>, start: nat, width: nat) returns (fit: nat)
    requires start < |glyphs| && forall i :: 0 <= i < |glyphs| ==> glyphs[i].width <= width
    ensures var end := BreakEnd(glyphs, start, width);
      && start < end <= fit <= |glyphs| && Sum(glyphs[start..end]) <= width
      && (fit < |glyphs| ==> Sum(glyphs[start..fit + 1]) > width)
      && (end < fit ==>
            fit < |glyphs| && glyphs[end - 1].whitespace && forall i :: end <= i <= fit ==> !glyphs[i].whitespace)
      && (end == fit < |glyphs| && !glyphs[end - 1].whitespace && !glyphs[end].whitespace ==>
            forall i :: start <= i < end ==> !glyphs[i].whitespace)
  {
    assert glyphs[start..start] == [];
    FitEndIs(glyphs, start, width, start, 0);
    fit := FitEnd(glyphs, start, width, start, 0);
    SumSplit(glyphs, start, BreakEnd(glyphs, start, width), fit);
  }

  /** What cannot be broken after a row reaches past the glyphs that fit. */
  lemma StretchOverflows(glyphs: seq<Glyph>, start: nat, fit: nat, breakEnd: nat, end: nat, width: nat)
    requires start < breakEnd <= fit && breakEnd <= end < |glyphs| && fit < |glyphs|
    requires Sum(glyphs[start..fit + 1]) > width
    requires forall i :: breakEnd <= i < end ==> glyphs[i].whitespace
    requires breakEnd < fit ==> forall i :: breakEnd <= i <= fit ==> !glyphs[i].whitespace
    ensures Sum(glyphs[start..StretchEnd(glyphs, end)]) > width
  {
    var stretch := StretchEnd(glyphs, end);
    assert stretch > fit;
    SumSplit(glyphs, start, fit + 1, stretch);
  }

  lemma {:induction false} RowEndIs(glyphs: seq<Glyph>, start: nat, width: nat)
    requires start < |glyphs| && forall i :: 0 <= i < |glyphs| ==> glyphs[i].width <= width
    ensures start < RowEnd(glyphs, start, width)
    ensures IsRow(glyphs, start, RowEnd(glyphs, start, width), width)
  {
    var fit := BreakEndIs(glyphs, start, width);
    var breakEnd, end := BreakEnd(glyphs, start, width), RowEnd(glyphs, start, width);
    assert IsFit(glyphs, start, breakEnd, end, width);
    if end < |glyphs| {
      StretchOverflows(glyphs, start, fit, breakEnd, end, width);
    }
  }

  // The rows of a line.

  /** The column of the cursor in a row. */
  function RowCursor(glyphs: seq<Glyph>, width: nat): (r: Option<nat>)
    requires width > 0
    ensures r.Some? ==> r.value < width
  {
    if glyphs == [] then None
    else
      var before, last := glyphs[..|glyphs| - 1], glyphs[|glyphs| - 1];
      if last.cursor then Some(Min(Sum(before), width - 1)) else RowCursor(before, width)
  }

  function RowPositions(glyphs: seq<Glyph>, width: nat): (r: seq<(nat, nat)>)
    ensures forall i :: 0 <= i < |r| ==> r[i].0 < width
  {
    if glyphs == [] then []
    else
      var before, last := glyphs[..|glyphs| - 1], glyphs[|glyphs| - 1];
      RowPositions(before, width) + (if Sum(before) < width then [(Sum(before), last.sourceColumn)] else [])
  }

  function RowOf(glyphs: seq<Glyph>, sourceRow: nat, width: nat): Row
    requires width > 0
  {
    Row(glyphs, sourceRow, RowCursor(glyphs, width), RowPositions(glyphs, width))
  }

  ghost predicate Fitting(glyphs: seq<Glyph>, width: nat) {
    width > 0 && forall i :: 0 <= i < |glyphs| ==> glyphs[i].width <= width
  }

  ghost function RowsFrom(glyphs: seq<Glyph>, start: nat, sourceRow: nat, width: nat): (r: seq<Row>)
    requires Fitting(glyphs, width) && start <= |glyphs|
    ensures start < |glyphs| ==> r != []
    decreases |glyphs| - start
  {
    if start == |glyphs| then []
    else
      RowEndIs(glyphs, start, width);
      var end := RowEnd(glyphs, start, width);
      [RowOf(glyphs[start..end], sourceRow, width)] + RowsFrom(glyphs, end, sourceRow, width)
  }

  /** Puts the cursor, when it is after the line, at the end of its last row or on a row of its own. */
  function PlaceEnd(rows: seq<Row>, sourceRow: nat, sourceColumn: nat, width: nat, hasCursor: bool): seq<Row> {
    if rows == [] then rows
    else
      var last := rows[|rows| - 1];
      var column := Sum(last.glyphs);
      if column < width then
        rows[|rows| - 1 := last.(
          positions := last.positions + [(column, sourceColumn)],
          cursor := if hasCursor then Some(column) else last.cursor)]
      else if hasCursor then rows + [Row([], sourceRow, Some(0), [(0, sourceColumn)])]
      else rows
  }

  function LineCursor(editor: Editor, sourceRow: nat, line: seq<Grapheme>): Option<nat> {
    var last := if editor.insert || LineChars(line) == 0 then LineChars(line) else LineChars(line) - 1;
    if sourceRow == editor.row then Some(Min(editor.column, last)) else None
  }

  ghost function Wrapped(editor: Editor, sourceRow: nat, line: seq<Grapheme>, width: nat): seq<Row>
    requires width > 0
  {
    var cursor := LineCursor(editor, sourceRow, line);
    if line == [] then [Row([], sourceRow, cursor, [(0, 0)])]
    else
      var rows := RowsFrom(Glyphs(line, width, cursor), 0, sourceRow, width);
      if editor.insert
      then PlaceEnd(rows, sourceRow, LineChars(line), width, cursor == Some(LineChars(line)))
      else rows
  }

  method Wrap(editor: Editor, sourceRow: nat, line: seq<Grapheme>, width: nat) returns (rows: seq<Row>)
    requires width > 0
    ensures rows == Wrapped(editor, sourceRow, line, width)
  {
    var cursor := LineCursor(editor, sourceRow, line);
    var glyphs := MakeGlyphs(line, width, cursor);
    if glyphs == [] {
      return [Row([], sourceRow, cursor, [(0, 0)])];
    }
    rows := WrapGlyphs(glyphs, sourceRow, width);
    if editor.insert {
      rows := PlaceEnd(rows, sourceRow, LineChars(line), width, cursor == Some(LineChars(line)));
    }
  }

  method WrapGlyphs(glyphs: seq<Glyph>, sourceRow: nat, width: nat) returns (rows: seq<Row>)
    requires Fitting(glyphs, width)
    ensures rows == RowsFrom(glyphs, 0, sourceRow, width)
  {
    rows := [];
    var start := 0;
    while start < |glyphs|
      invariant start <= |glyphs|
      invariant rows + RowsFrom(glyphs, start, sourceRow, width) == RowsFrom(glyphs, 0, sourceRow, width)
    {
      RowEndIs(glyphs, start, width);
      var end := WrapEnd(glyphs, start, width);
      var row := ShowRow(glyphs[start..end], sourceRow, width);
      rows := rows + [row];
      start := end;
    }
    assert rows + [] == rows;
  }

  method ShowRow(glyphs: seq<Glyph>, sourceRow: nat, width: nat) returns (row: Row)
    requires width > 0
    ensures row == RowOf(glyphs, sourceRow, width)
  {
    var column, cursor, positions := 0, None, [];
    for index := 0 to |glyphs|
      invariant column == Sum(glyphs[..index])
      invariant cursor == RowCursor(glyphs[..index], width)
      invariant positions == RowPositions(glyphs[..index], width)
    {
      assert glyphs[..index + 1][..index] == glyphs[..index];
      if column < width {
        positions := positions + [(column, glyphs[index].sourceColumn)];
      }
      if glyphs[index].cursor {
        cursor := Some(Min(column, width - 1));
      }
      column := column + glyphs[index].width;
    }
    assert glyphs[..|glyphs|] == glyphs;
    row := Row(glyphs, sourceRow, cursor, positions);
  }

  /** The rows of each line. */
  ghost function LineRows(editor: Editor, width: nat): (r: seq<seq<Row>>)
    requires width > 0
    ensures |r| == |editor.lines|
    ensures forall i :: 0 <= i < |r| ==> r[i] == Wrapped(editor, i, editor.lines[i], width)
  {
    seq(|editor.lines|, i requires 0 <= i < |editor.lines| => Wrapped(editor, i, editor.lines[i], width))
  }

  function Flatten(blocks: seq<seq<Row>>): seq<Row> {
    if blocks == [] then [] else Flatten(blocks[..|blocks| - 1]) + blocks[|blocks| - 1]
  }

  function AtLeastOne(width: nat): nat {
    if width == 0 then 1 else width
  }

  ghost function DocumentRows(editor: Editor, areaWidth: nat): seq<Row> {
    var rows := Flatten(LineRows(editor, AtLeastOne(areaWidth)));
    if rows == [] then Wrapped(editor, 0, [], AtLeastOne(areaWidth)) else rows
  }

  method Document(editor: Editor, areaWidth: nat) returns (rows: seq<Row>)
    ensures rows == DocumentRows(editor, areaWidth)
  {
    rows := WrapLines(editor, AtLeastOne(areaWidth));
    if rows == [] {
      rows := Wrap(editor, 0, [], AtLeastOne(areaWidth));
    }
  }

  method WrapLines(editor: Editor, width: nat) returns (rows: seq<Row>)
    requires width > 0
    ensures rows == Flatten(LineRows(editor, width))
  {
    rows := [];
    ghost var blocks: seq<seq<Row>> := [];
    for row := 0 to |editor.lines|
      invariant rows == Flatten(blocks)
      invariant |blocks| == row && forall i :: 0 <= i < row ==> blocks[i] == Wrapped(editor, i, editor.lines[i], width)
    {
      var wrapped := Wrap(editor, row, editor.lines[row], width);
      rows := rows + wrapped;
      blocks := blocks + [wrapped];
    }
    assert blocks == LineRows(editor, width);
  }

}
