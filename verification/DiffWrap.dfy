/**
 `crates/diff-rendering/src/lib.rs`: the wrapping of a diff line into rows, those after the first
 indented to the columns where the line's text starts.

 A grapheme is its symbol, its style and its width; `IsRowEnd` says where a row ends without the loop
 that finds it.
 */
module DiffWrap {
  import opened Common
  import opened Wrappers

  type Style = nat

  datatype Grapheme = Grapheme(symbol: string, style: Style, width: nat)

  /** What is before the text of a row: the bar of a changed line, and blanks. */
  datatype Span = Bar(bar: Grapheme) | Blanks(count: nat, style: Style)

  datatype Row = Row(prefix: seq<Span>, text: seq<Grapheme>)

  predicate IsWhitespace(grapheme: Grapheme) {
    grapheme.symbol == " " || grapheme.symbol == "\t"
  }

  predicate IsBar(grapheme: Grapheme) {
    grapheme.symbol == "▌"
  }

  /** The bar is one column wide. */
  predicate HasWidths(line: seq<Grapheme>) {
    forall i :: 0 <= i < |line| && IsBar(line[i]) ==> line[i].width == 1
  }

  /** The column where the `k`-th grapheme starts. */
  function Column(line: seq<Grapheme>, k: nat): nat
    requires k <= |line|
  {
    if k == 0 then 0 else Column(line, k - 1) + line[k - 1].width
  }

  function WidthOf(text: seq<Grapheme>): nat {
    Column(text, |text|)
  }

  /** The columns between two graphemes. */
  function Between(line: seq<Grapheme>, start: nat, end: nat): int
    requires start <= |line| && end <= |line|
  {
    Column(line, end) - Column(line, start)
  }

  lemma {:induction false} ColumnGrows(line: seq<Grapheme>, start: nat, end: nat)
    requires start <= end <= |line|
    ensures Column(line, start) <= Column(line, end)
    decreases end
  {
    if start < end {
      ColumnGrows(line, start, end - 1);
    }
  }

  lemma {:induction false} SliceWidth(line: seq<Grapheme>, start: nat, end: nat)
    requires start <= end <= |line|
    ensures WidthOf(line[start..end]) == Between(line, start, end)
    decreases end
  {
    if start < end {
      SliceWidth(line, start, end - 1);
      ColumnOfPrefix(line[start..end], end - 1 - start);
      assert line[start..end][..end - 1 - start] == line[start..end - 1];
    }
  }

  lemma {:induction false} ColumnOfPrefix(line: seq<Grapheme>, k: nat)
    requires k <= |line|
    ensures Column(line, k) == WidthOf(line[..k])
  {
    ColumnsAgree(line, line[..k], k);
  }

  lemma {:induction false} ColumnsAgree(line: seq<Grapheme>, other: seq<Grapheme>, k: nat)
    requires k <= |line| && k <= |other| && line[..k] == other[..k]
    ensures Column(line, k) == Column(other, k)
    decreases k
  {
    if k > 0 {
      assert line[k - 1] == line[..k][k - 1] == other[..k][k - 1] == other[k - 1];
      assert line[..k - 1] == line[..k][..k - 1] == other[..k][..k - 1] == other[..k - 1];
      ColumnsAgree(line, other, k - 1);
    }
  }

  // The rows.

  /** Whether there is text at `k`, outside the indent. */
  predicate IsText(line: seq<Grapheme>, indent: nat, k: nat)
    requires k < |line|
  {
    !IsWhitespace(line[k]) && Column(line, k) >= indent
  }

  /** Whether a word ends before `end`: white space outside the indent, after text of its row. */
  predicate IsBoundary(line: seq<Grapheme>, indent: nat, start: nat, end: nat)
    requires end <= |line|
  {
    && start < end
    && IsWhitespace(line[end - 1])
    && Column(line, end - 1) >= indent
    && exists k :: start <= k < end - 1 && IsText(line, indent, k)
  }

  /** Whether the graphemes from `start` to `end` fit and the next one does not; one fits always. */
  predicate IsFitEnd(line: seq<Grapheme>, start: nat, available: nat, end: nat) {
    && start < end <= |line|
    && (end > start + 1 ==> Between(line, start, end) <= available)
    && (end < |line| ==> Between(line, start, end + 1) > available)
  }

  predicate HasBoundary(line: seq<Grapheme>, indent: nat, start: nat, low: nat, high: nat)
    requires high <= |line|
  {
    exists end :: low < end <= high && IsBoundary(line, indent, start, end)
  }

  /**
   Where a row ends: with the line when its rest fits; else after the last word that ends among what
   fits; else, inside a word, where no more fits.
   */
  predicate IsRowEnd(line: seq<Grapheme>, start: nat, available: nat, indent: nat, end: nat) {
    exists fit :: end <= fit <= |line|
      && IsFitEnd(line, start, available, fit)
      && if fit == |line| || !HasBoundary(line, indent, start, start, fit) then end == fit
         else IsBoundary(line, indent, start, end) && !HasBoundary(line, indent, start, end, fit)
  }

  function VisibleIndent(line: seq<Grapheme>, width: nat, indent: nat, start: nat): (r: nat)
    requires start < |line|
    ensures r <= Minus(width, line[start].width)
  {
    if start == 0 then 0 else Min(indent, Minus(width, line[start].width))
  }

  function Prefix(line: seq<Grapheme>, start: nat, visibleIndent: nat): seq<Span>
    requires start < |line|
  {
    if visibleIndent == 0 then []
    else
      var bar := if IsBar(line[0]) then [Bar(line[0])] else [];
      var blanks := Minus(visibleIndent, |bar|);
      bar + if blanks > 0 then [Blanks(blanks, line[start].style)] else []
  }

  predicate IsRow(line: seq<Grapheme>, width: nat, indent: nat, start: nat, row: Row) {
    && row.text != [] && start + |row.text| <= |line|
    && row.text == line[start..start + |row.text|]
    && row.prefix == Prefix(line, start, VisibleIndent(line, width, indent, start))
    && IsRowEnd(line, start, Minus(width, VisibleIndent(line, width, indent, start)), indent, start + |row.text|)
  }

  /** How many graphemes are in the rows. */
  function Length(rows: seq<Row>): nat {
    if rows == [] then 0 else Length(rows[..|rows| - 1]) + |rows[|rows| - 1].text|
  }

  /** Whether each row follows the rows before it. */
  predicate AreRows(line: seq<Grapheme>, width: nat, indent: nat, rows: seq<Row>) {
    rows == []
    || (AreRows(line, width, indent, rows[..|rows| - 1])
        && IsRow(line, width, indent, Length(rows[..|rows| - 1]), rows[|rows| - 1]))
  }

  method FindWrapEnd(line: seq<Grapheme>, start: nat, available: nat, consumed: nat, indent: nat)
    returns (end: nat, content: nat)
    requires start < |line| && consumed == Column(line, start)
    ensures start < end <= |line| && IsRowEnd(line, start, available, indent, end)
    ensures content == Between(line, start, end)
  {
    end, content := start, 0;
    var boundary: Option<nat>, sawText: bool := None, false;
    while end < |line|
      invariant start <= end <= |line| && content == Between(line, start, end)
      invariant end > start + 1 ==> content <= available
      invariant sawText <==> exists k :: start <= k < end && IsText(line, indent, k)
      invariant boundary == None ==> !HasBoundary(line, indent, start, start, end)
      invariant boundary.Some? ==> start < boundary.value <= end
      invariant boundary.Some? ==> IsBoundary(line, indent, start, boundary.value)
      invariant boundary.Some? ==> !HasBoundary(line, indent, start, boundary.value, end)
    {
      var grapheme := line[end];
      if end > start && content + grapheme.width > available {
        break;
      }
      var column := consumed + content;
      content := content + grapheme.width;
      end := end + 1;
      assert IsText(line, indent, end - 1) <==> column >= indent && !IsWhitespace(grapheme);
      if column >= indent {
        if IsWhitespace(grapheme) && sawText {
          boundary := Some(end);
        } else if !IsWhitespace(grapheme) {
          sawText := true;
        }
      }
    }
    assert IsFitEnd(line, start, available, end);
    if end < |line| && boundary.Some? {
      end := boundary.value;
      content := WidthOf(line[start..end]);
      SliceWidth(line, start, end);
    }
  }

  method ContinuationPrefix(line: seq<Grapheme>, start: nat, visibleIndent: nat) returns (spans: seq<Span>)
    requires start < |line|
    ensures spans == Prefix(line, start, visibleIndent)
  {
    if visibleIndent == 0 {
      return [];
    }
    spans := if IsBar(line[0]) then [Bar(line[0])] else [];
    var blanks := Minus(visibleIndent, |spans|);
    if blanks > 0 {
      spans := spans + [Blanks(blanks, line[start].style)];
    }
  }

  method WrapLine(line: seq<Grapheme>, viewWidth: nat, indent: nat) returns (rows: seq<Row>)
    ensures line == [] ==> rows == [Row([], [])]
    ensures line != [] ==> Length(rows) == |line| && AreRows(line, Max(viewWidth, 1), indent, rows)
  {
    var width := Max(viewWidth, 1);
    if line == [] {
      return [Row([], [])];
    }
    rows := [];
    var start, consumed := 0, 0;
    while start < |line|
      invariant start == Length(rows) <= |line| && consumed == Column(line, start)
      invariant rows == [] <==> start == 0
      invariant AreRows(line, width, indent, rows)
    {
      hide IsRowEnd, AreRows, IsRow, Length, Column, Prefix;
      var visibleIndent := if rows == [] then 0 else Min(indent, Minus(width, line[start].width));
      assert visibleIndent == VisibleIndent(line, width, indent, start);
      var end, content := FindWrapEnd(line, start, Minus(width, visibleIndent), consumed, indent);
      var prefix := ContinuationPrefix(line, start, visibleIndent);
      AddRow(line, width, indent, rows, start, end);
      rows := rows + [Row(prefix, line[start..end])];
      consumed := consumed + content;
      start := end;
    }
  }

  /** Rows, and the one that starts after them. */
  lemma AddRow(line: seq<Grapheme>, width: nat, indent: nat, rows: seq<Row>, start: nat, end: nat)
    requires AreRows(line, width, indent, rows) && start == Length(rows) && start < end <= |line|
    requires IsRowEnd(line, start, Minus(width, VisibleIndent(line, width, indent, start)), indent, end)
    ensures var row := Row(Prefix(line, start, VisibleIndent(line, width, indent, start)), line[start..end]);
      AreRows(line, width, indent, rows + [row]) && Length(rows + [row]) == end
  {
    hide IsRowEnd, Prefix;
    var row := Row(Prefix(line, start, VisibleIndent(line, width, indent, start)), line[start..end]);
    assert IsRow(line, width, indent, start, row);
  }

  // What the rows are.

  function Texts(rows: seq<Row>): seq<Grapheme> {
    if rows == [] then [] else Texts(rows[..|rows| - 1]) + rows[|rows| - 1].text
  }

  /** The rows without their prefixes are the line. */
  lemma {:induction false} RowsJoin(line: seq<Grapheme>, width: nat, indent: nat, rows: seq<Row>)
    requires AreRows(line, width, indent, rows)
    ensures Length(rows) <= |line| && Texts(rows) == line[..Length(rows)]
    decreases |rows|
  {
    hide IsRowEnd;
    if rows != [] {
      var before := rows[..|rows| - 1];
      RowsJoin(line, width, indent, before);
      SlicesJoin(line, Length(before), Length(rows));
    }
  }

  function SpanWidth(span: Span): nat {
    match span
    case Bar(bar) => bar.width
    case Blanks(count, _) => count
  }

  function PrefixWidth(prefix: seq<Span>): nat {
    if prefix == [] then 0 else PrefixWidth(prefix[..|prefix| - 1]) + SpanWidth(prefix[|prefix| - 1])
  }

  lemma PrefixWidthOfMore(prefix: seq<Span>, span: Span)
    ensures PrefixWidth(prefix + [span]) == PrefixWidth(prefix) + SpanWidth(span)
  {
    assert (prefix + [span])[..|prefix|] == prefix;
  }

  lemma PrefixIsIndent(line: seq<Grapheme>, start: nat, visibleIndent: nat)
    requires start < |line| && HasWidths(line)
    ensures PrefixWidth(Prefix(line, start, visibleIndent)) == visibleIndent
  {
    var bar := if IsBar(line[0]) then [Bar(line[0])] else [];
    if bar != [] {
      PrefixWidthOfMore([], Bar(line[0]));
      assert [] + [Bar(line[0])] == bar;
    }
    PrefixWidthOfMore(bar, Blanks(Minus(visibleIndent, |bar|), line[start].style));
    assert bar + [] == bar;
  }

  /**
   The first row of a line has no prefix. The others have the bar of a changed line, when they have room for
   it, and blanks up to the indent, in the style of the row's first grapheme.
   */
  lemma {:induction false} PrefixIs(line: seq<Grapheme>, width: nat, indent: nat, start: nat, row: Row)
    requires IsRow(line, width, indent, start, row)
    ensures start == 0 ==> row.prefix == []
    ensures start > 0 ==>
              var room := Minus(width, row.text[0].width);
              var columns := if indent < room then indent else room;
              var bar := if columns > 0 && line[0].symbol == "▌" then [Bar(line[0])] else [];
              row.prefix == if columns > |bar| then bar + [Blanks(columns - |bar|, row.text[0].style)] else bar
  {
    hide IsRowEnd;
    assert row.text[0] == line[start];
    var bar := if IsBar(line[0]) then [Bar(line[0])] else [];
    assert bar + [] == bar;
  }

  lemma RowEndFits(line: seq<Grapheme>, start: nat, available: nat, indent: nat, end: nat)
    requires IsRowEnd(line, start, available, indent, end)
    ensures start < end <= |line|
    ensures Between(line, start, end) <= available || end == start + 1
  {
    var fit :| end <= fit <= |line| && IsFitEnd(line, start, available, fit)
      && if fit == |line| || !HasBoundary(line, indent, start, start, fit) then end == fit
         else IsBoundary(line, indent, start, end) && !HasBoundary(line, indent, start, end, fit);
    ColumnGrows(line, end, fit);
    if end > start + 1 {
      assert fit > start + 1;
    }
  }

  /** A row with its prefix fits the width, unless it is one grapheme wider than that, not indented. */
  lemma {:induction false} RowFits(line: seq<Grapheme>, width: nat, indent: nat, start: nat, row: Row)
    requires HasWidths(line) && IsRow(line, width, indent, start, row)
    ensures PrefixWidth(row.prefix) + WidthOf(row.text) <= width
         || (row.prefix == [] && |row.text| == 1 && line[start].width > width)
  {
    hide IsRowEnd;
    var end, visibleIndent := start + |row.text|, VisibleIndent(line, width, indent, start);
    PrefixIsIndent(line, start, visibleIndent);
    RowEndFits(line, start, Minus(width, visibleIndent), indent, end);
    SliceWidth(line, start, end);
    assert Between(line, start, start + 1) == line[start].width;
  }

  /** When every grapheme fits the width, so does every row with its prefix. */
  lemma {:induction false} RowsFit(line: seq<Grapheme>, width: nat, indent: nat, rows: seq<Row>)
    requires HasWidths(line) && AreRows(line, width, indent, rows)
    requires forall i :: 0 <= i < |line| ==> line[i].width <= width
    ensures forall i :: 0 <= i < |rows| ==> PrefixWidth(rows[i].prefix) + WidthOf(rows[i].text) <= width
    decreases |rows|
  {
    hide IsRowEnd, PrefixWidth, WidthOf, Length, Prefix;
    if rows != [] {
      var before := rows[..|rows| - 1];
      RowsFit(line, width, indent, before);
      RowFits(line, width, indent, Length(before), rows[|rows| - 1]);
      forall i | 0 <= i < |before|
        ensures PrefixWidth(rows[i].prefix) + WidthOf(rows[i].text) <= width
      {
        assert rows[i] == before[i];
      }
    }
  }

  lemma FitEndIsOne(line: seq<Grapheme>, start: nat, available: nat, fit: nat, other: nat)
    requires IsFitEnd(line, start, available, fit) && IsFitEnd(line, start, available, other)
    ensures fit == other
  {
    if fit < other {
      ColumnGrows(line, fit + 1, other);
    } else if other < fit {
      ColumnGrows(line, other + 1, fit);
    }
  }

  /** There is one place where a row ends. */
  lemma {:induction false} RowEndIsOne(line: seq<Grapheme>, start: nat, available: nat, indent: nat, end: nat,
        other: nat)
    requires IsRowEnd(line, start, available, indent, end) && IsRowEnd(line, start, available, indent, other)
    ensures end == other
  {
    hide IsFitEnd, IsBoundary;
    var fit :| end <= fit <= |line| && IsFitEnd(line, start, available, fit)
      && if fit == |line| || !HasBoundary(line, indent, start, start, fit) then end == fit
         else IsBoundary(line, indent, start, end) && !HasBoundary(line, indent, start, end, fit);
    var same :| other <= same <= |line| && IsFitEnd(line, start, available, same)
      && if same == |line| || !HasBoundary(line, indent, start, start, same) then other == same
         else IsBoundary(line, indent, start, other) && !HasBoundary(line, indent, start, other, same);
    FitEndIsOne(line, start, available, fit, same);
  }

  /**
   A break between rows: after white space outside the first `indent` columns that follows text of its row;
   or inside a word, where nothing that fits ends one and the next grapheme does not fit.
   */
  predicate IsBreak(line: seq<Grapheme>, width: nat, indent: nat, start: nat, end: nat)
    requires start < |line| && end < |line|
  {
    || (IsBoundary(line, indent, start, end) && Column(line, end) >= indent)
    || (!HasBoundary(line, indent, start, start, end)
        && Between(line, start, end + 1) > Minus(width, VisibleIndent(line, width, indent, start)))
  }

  lemma RowBreaks(line: seq<Grapheme>, width: nat, indent: nat, start: nat, row: Row)
    requires IsRow(line, width, indent, start, row) && start + |row.text| < |line|
    ensures IsBreak(line, width, indent, start, start + |row.text|)
  {
    var end := start + |row.text|;
    if IsBoundary(line, indent, start, end) {
      ColumnGrows(line, end - 1, end);
    }
  }

  /** Every row but the last ends at such a break. */
  lemma {:induction false} RowsBreak(line: seq<Grapheme>, width: nat, indent: nat, rows: seq<Row>, i: nat)
    requires AreRows(line, width, indent, rows) && i < |rows|
    ensures var start, end := Length(rows[..i]), Length(rows[..i + 1]);
      start < |line| && (end < |line| ==> IsBreak(line, width, indent, start, end))
    decreases |rows|
  {
    hide IsBreak, IsRowEnd;
    var before, last := rows[..|rows| - 1], rows[|rows| - 1];
    if i < |before| {
      assert rows[..i] == before[..i] && rows[..i + 1] == before[..i + 1];
      RowsBreak(line, width, indent, before, i);
    } else {
      assert rows[..i] == before && rows[..i + 1] == rows;
      if Length(rows) < |line| {
        RowBreaks(line, width, indent, Length(before), last);
      }
    }
  }
}
