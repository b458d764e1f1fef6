/**
 What the page shows of Markdown: `Shown` says of each event, by the events around it alone, what it
 becomes on the page, and the rewrite writes exactly that (`crates/markdown-html/src/lib.rs`).

 The ends of tags are left to `MarkdownNesting`, which says that they close what is open.
 */
module MarkdownContent {
  import opened Common
  import opened Wrappers
  import opened Text
  import opened MarkdownHtml
  import MarkdownNesting

  // Markers.

  ghost predicate SameLetters(a: string, b: string) {
    |a| == |b| && forall i :: 0 <= i < |a| ==>
      || a[i] == b[i]
      || ('A' <= a[i] <= 'Z' && b[i] as int == a[i] as int + 32)
      || ('A' <= b[i] <= 'Z' && a[i] as int == b[i] as int + 32)
  }

  /** `text` is white space, the marker in any case, white space, and then `after`. */
  ghost predicate IsMarked(text: string, marker: string, after: string) {
    exists blank, written, gap :: IsMarkedBy(text, marker, after, blank, written, gap)
  }

  ghost predicate IsMarkedBy(
    text: string, marker: string, after: string, blank: string, written: string, gap: string)
  {
    && text == blank + (written + (gap + after)) && Blank(blank) && SameLetters(written, marker) && Blank(gap)
    && (after == "" || !IsWhitespace(after[0]))
  }

  lemma SameLettersIs(a: string, b: string)
    ensures SameLetters(a, b) <==> EqualIgnoringCase(a, b)
  {
    if |a| == |b| {
      forall i | 0 <= i < |a|
        ensures Lower(a[i]) == Lower(b[i]) <==>
                (|| a[i] == b[i] || ('A' <= a[i] <= 'Z' && b[i] as int == a[i] as int + 32)
                 || ('A' <= b[i] <= 'Z' && a[i] as int == b[i] as int + 32))
      {
      }
    }
  }

  lemma MarkedReads(blank: string, written: string, gap: string, after: string, marker: string)
    requires marker != "" && !IsWhitespace(marker[0])
    requires Blank(blank) && SameLetters(written, marker) && Blank(gap) && (after == "" || !IsWhitespace(after[0]))
    ensures var trimmed := TrimStart(blank + (written + (gap + after)));
      Opens(trimmed, marker) && after == TrimStart(trimmed[|marker|..])
  {
    SameLettersIs(written, marker);
    assert !IsWhitespace(written[0]);
    TrimStartOf(blank, written + (gap + after));
    SplitAt(written, gap + after);
    TrimStartOf(gap, after);
  }

  lemma ReadIsMarked(text: string, marker: string)
    requires Opens(TrimStart(text), marker)
    ensures IsMarked(text, marker, TrimStart(TrimStart(text)[|marker|..]))
  {
    var trimmed := TrimStart(text);
    var after := TrimStart(trimmed[|marker|..]);
    var blank := TrimStartSplit(text);
    var gap := TrimStartSplit(trimmed[|marker|..]);
    var written := trimmed[..|marker|];
    SameLettersIs(written, marker);
    hide TrimStart, SameLetters;
    assert trimmed == written + trimmed[|marker|..];
    assert IsMarkedBy(text, marker, after, blank, written, gap);
  }

  lemma MarkedIs(text: string, marker: string, after: string)
    requires marker != "" && !IsWhitespace(marker[0])
    ensures IsMarked(text, marker, after) <==>
            Opens(TrimStart(text), marker) && after == TrimStart(TrimStart(text)[|marker|..])
  {
    if Opens(TrimStart(text), marker) {
      ReadIsMarked(text, marker);
    }
    forall blank, written, gap | IsMarkedBy(text, marker, after, blank, written, gap)
      ensures Opens(TrimStart(text), marker) && after == TrimStart(TrimStart(text)[|marker|..])
    {
      MarkedReads(blank, written, gap, after, marker);
    }
  }

  /** A link stays one exactly when its destination starts with one of the three schemes, in any case. */
  lemma {:induction false} WebLinksAre(url: string)
    ensures IsWebLink(url) <==>
            exists scheme :: scheme in ["http://", "https://", "mailto:"] && |scheme| <= |url|
                             && SameLetters(url[..|scheme|], scheme)
  {
    forall scheme | scheme in ["http://", "https://", "mailto:"] && |scheme| <= |url|
      ensures SameLetters(url[..|scheme|], scheme) <==> Opens(url, scheme)
    {
      SameLettersIs(url[..|scheme|], scheme);
    }
  }

  ghost predicate AreMarkers(marks: seq<Mark>) {
    forall i :: 0 <= i < |marks| ==> marks[i].marker != "" && !IsWhitespace(marks[i].marker[0])
  }

  /** A mark is found with the text after its marker, and none exactly when no marker opens the text. */
  lemma {:induction false} StripIs(marks: seq<Mark>, text: string)
    requires AreMarkers(marks)
    ensures match Strip(marks, text)
            case Some((mark, after)) => mark in marks && IsMarked(text, mark.marker, after)
            case None => forall mark, after :: mark in marks ==> !IsMarked(text, mark.marker, after)
    decreases |marks|
  {
    if marks != [] {
      forall after
        ensures IsMarked(text, marks[0].marker, after) <==>
                Opens(TrimStart(text), marks[0].marker) && after == TrimStart(TrimStart(text)[|marks[0].marker|..])
      {
        MarkedIs(text, marks[0].marker, after);
      }
      StripIs(marks[1..], text);
      assert forall mark :: mark in marks ==> mark == marks[0] || mark in marks[1..];
    }
  }

  // What each event becomes.

  /** Whether a callout opens at `at`: a quote whose first paragraph opens with the marker of a callout. */
  predicate OpensCallout(events: seq<Event>, at: int) {
    && 0 <= at < |events| - 2 && events[at] == Start(BlockQuote) && events[at + 1] == Start(Paragraph)
    && events[at + 2].Text? && Strip(CALLOUTS, events[at + 2].text).Some?
  }

  function CalloutAt(events: seq<Event>, at: int): (Mark, string)
    requires OpensCallout(events, at)
  {
    Strip(CALLOUTS, events[at + 2].text).value
  }

  /** Whether nothing follows the marker in its text: then the event `at + 3` goes with it, a break or the end. */
  predicate IsBare(events: seq<Event>, at: int, next: Event)
    requires OpensCallout(events, at)
  {
    CalloutAt(events, at).1 == "" && at + 3 < |events| && events[at + 3] == next
  }

  /** Whether a cell opens at `at` with the marker of a status. */
  predicate OpensStatus(events: seq<Event>, at: int) {
    && 0 <= at < |events| - 1 && events[at] == Start(TableCell)
    && events[at + 1].Text? && Strip(STATUSES, events[at + 1].text).Some?
  }

  function StatusAt(events: seq<Event>, at: int): (Mark, string)
    requires OpensStatus(events, at)
  {
    Strip(STATUSES, events[at + 1].text).value
  }

  /** The alignments of the last table that started. */
  function AlignmentsAfter(seen: seq<Event>): seq<Alignment> {
    if seen == [] then []
    else
      match seen[|seen| - 1]
      case Start(Table(alignments)) => alignments
      case _ => AlignmentsAfter(seen[..|seen| - 1])
  }

  /** How many cells ended since the last row started. */
  function ColumnAfter(seen: seq<Event>): nat {
    if seen == [] then 0
    else
      match seen[|seen| - 1]
      case Start(TableHead) => 0
      case Start(TableRow) => 0
      case End(TableCellEnd) => ColumnAfter(seen[..|seen| - 1]) + 1
      case _ => ColumnAfter(seen[..|seen| - 1])
  }

  /** Whether the head of a table started and did not end. */
  predicate InHeadAfter(seen: seq<Event>) {
    seen != [] &&
    match seen[|seen| - 1]
    case Start(TableHead) => true
    case End(TableHeadEnd) => false
    case _ => InHeadAfter(seen[..|seen| - 1])
  }

  function CellAt(events: seq<Event>, at: nat): seq<Event>
    requires at < |events|
  {
    var seen := events[..at];
    var alignments, column := AlignmentsAfter(seen), ColumnAfter(seen);
    var alignment := if column < |alignments| then alignments[column] else NoAlignment;
    if OpensStatus(events, at) then
      var mark := StatusAt(events, at).0;
      [Html(CellHtml(InHeadAfter(seen), alignment, Some(mark))), Html(StatusHtml(mark))]
    else [Html(CellHtml(InHeadAfter(seen), alignment, None))]
  }

  /** What an event becomes that no marker concerns. */
  function Alone(shift: nat, event: Event): seq<Event> {
    match event
    case Start(HtmlBlock) => [Start(Paragraph)]
    case Start(Heading(level)) => [Start(Heading(if level + shift < 6 then level + shift else 6))]
    case Start(Link(email, url)) => if email || IsWebLink(url) then [event] else []
    case Start(Image(_)) => []
    case Html(html) => [Text(html)]
    case InlineHtml(html) => [Text(html)]
    case End(_) => []
    case _ => [event]
  }

  /** Whether the event `at` goes with a marker before it. */
  predicate IsTaken(events: seq<Event>, at: nat) {
    || OpensCallout(events, at - 1) || OpensCallout(events, at - 2)
    || (OpensCallout(events, at - 3) &&
        (|| IsBare(events, at - 3, SoftBreak) || IsBare(events, at - 3, HardBreak)
         || IsBare(events, at - 3, End(ParagraphEnd))))
    || OpensStatus(events, at - 1)
  }

  /** What an event becomes that goes with a marker. */
  function TakenShown(events: seq<Event>, at: nat): seq<Event> {
    if OpensCallout(events, at - 1) then
      if IsBare(events, at - 1, End(ParagraphEnd)) then [] else [Start(Paragraph)]
    else if OpensCallout(events, at - 2) then
      var text := CalloutAt(events, at - 2).1;
      if text == "" then [] else [Text(text)]
    else if OpensStatus(events, at - 1) then
      var text := StatusAt(events, at - 1).1;
      if text == "" && at + 1 < |events| && events[at + 1] == End(TableCellEnd) then [] else [Text(" " + text)]
    else []
  }

  /** What the event `at` becomes on the page, by itself and the events around it. */
  function Shown(shift: nat, events: seq<Event>, at: nat): seq<Event>
    requires at < |events|
  {
    if IsTaken(events, at) then TakenShown(events, at)
    else if OpensCallout(events, at) then [Html(CalloutHtml(CalloutAt(events, at).0))]
    else if events[at] == Start(TableCell) then CellAt(events, at)
    else Alone(shift, events[at])
  }

  function ShownBefore(shift: nat, events: seq<Event>, at: nat): seq<Event>
    requires at <= |events|
  {
    if at == 0 then [] else ShownBefore(shift, events, at - 1) + Shown(shift, events, at - 1)
  }

  /** The events of a page but the ends of what is open. */
  function Content(page: seq<Event>): seq<Event> {
    if page == [] then []
    else
      var last := page[|page| - 1];
      Content(page[..|page| - 1]) + if last.End? || last == Html(CLOSE_CALLOUT) then [] else [last]
  }

  lemma ContentOfMore(page: seq<Event>, event: Event)
    ensures Content(page + [event]) ==
        Content(page) + if event.End? || event == Html(CLOSE_CALLOUT) then [] else [event]
  {
    assert (page + [event])[..|page|] == page;
  }

  // The rewrite writes what is shown.

  /** The rewrite wrote what is shown of the events before `at`, and reads on there. */
  ghost predicate WroteBefore(shift: nat, st: State, events: seq<Event>, at: nat) {
    && at <= |events| && !IsTaken(events, at) && Content(st.output) == ShownBefore(shift, events, at)
    && st.table == TableState(AlignmentsAfter(events[..at]), InHeadAfter(events[..at]), ColumnAfter(events[..at]))
  }

  lemma SeenMore(events: seq<Event>, at: nat)
    requires at < |events|
    ensures events[..at + 1][..at] == events[..at] && events[..at + 1][at] == events[at]
  {
  }

  /** The state of the table after an event that is neither of a table's rows nor of its cells. */
  lemma SeenSame(events: seq<Event>, at: nat)
    requires at < |events|
    requires events[at] == Start(BlockQuote) || events[at] == Start(Paragraph) || events[at] == Start(TableCell)
          || events[at] == End(ParagraphEnd) || (!events[at].Start? && !events[at].End?)
    ensures AlignmentsAfter(events[..at + 1]) == AlignmentsAfter(events[..at])
    ensures InHeadAfter(events[..at + 1]) == InHeadAfter(events[..at])
    ensures ColumnAfter(events[..at + 1]) == ColumnAfter(events[..at])
  {
    SeenMore(events, at);
  }

  lemma CalloutTaken(events: seq<Event>, at: nat)
    requires OpensCallout(events, at) && !IsTaken(events, at)
    ensures !IsTaken(events, at + 3) <==>
            !(|| IsBare(events, at, SoftBreak) || IsBare(events, at, HardBreak)
                || IsBare(events, at, End(ParagraphEnd)))
    ensures at + 3 < |events| && !events[at + 3].Start? ==> !IsTaken(events, at + 4)
    ensures !OpensCallout(events, at + 1) && !OpensCallout(events, at + 2) && !OpensCallout(events, at - 1)
    ensures !OpensCallout(events, at - 2) && !OpensStatus(events, at) && !OpensStatus(events, at + 1)
  {
  }

  /** What a callout shows of its quote, its paragraph, its marker and what goes with that. */
  lemma CalloutShown(shift: nat, events: seq<Event>, at: nat)
    requires OpensCallout(events, at) && !IsTaken(events, at)
    ensures Shown(shift, events, at) == [Html(CalloutHtml(CalloutAt(events, at).0))]
    ensures Shown(shift, events, at + 1) == if IsBare(events, at, End(ParagraphEnd)) then [] else [Start(Paragraph)]
    ensures var text := CalloutAt(events, at).1; Shown(shift, events, at + 2) == if text == "" then [] else [Text(text)]
    ensures at + 3 < |events| && IsTaken(events, at + 3) ==> Shown(shift, events, at + 3) == []
  {
    hide CalloutHtml;
    CalloutTaken(events, at);
  }

  /** Whether events are all content: no end of what is open. */
  ghost predicate AllContent(events: seq<Event>) {
    forall event :: event in events ==> !event.End? && event != Html(CLOSE_CALLOUT)
  }

  lemma {:induction false} ContentMore(page: seq<Event>, events: seq<Event>)
    requires AllContent(events)
    ensures Content(page + events) == Content(page) + events
    decreases |events|
  {
    hide Content;
    if events == [] {
      assert page + events == page;
    } else {
      var before, last := events[..|events| - 1], events[|events| - 1];
      assert forall event :: event in before ==> event in events;
      assert last in events;
      ContentMore(page, before);
      ContentOfMore(page + before, last);
      assert events == before + [last];
      Associate(page, before, [last]);
      Associate(Content(page), before, [last]);
    }
  }

  lemma ShownThrice(shift: nat, events: seq<Event>, at: nat)
    requires at + 3 <= |events|
    ensures ShownBefore(shift, events, at + 3) == ShownBefore(shift, events, at) + CalloutEvents(shift, events, at)
  {
    hide Shown;
    var a, b, c := Shown(shift, events, at), Shown(shift, events, at + 1), Shown(shift, events, at + 2);
    assert ShownBefore(shift, events, at + 2) == ShownBefore(shift, events, at) + a + b;
    assert ShownBefore(shift, events, at) + a + b + c == ShownBefore(shift, events, at) + (a + b + c);
  }

  lemma CalloutSeen(events: seq<Event>, at: nat, end: nat)
    requires OpensCallout(events, at) && at + 3 <= end <= |events|
    requires end == at + 3 || (end == at + 4 && IsTaken(events, at + 3))
    requires !IsTaken(events, at)
    ensures AlignmentsAfter(events[..end]) == AlignmentsAfter(events[..at])
    ensures InHeadAfter(events[..end]) == InHeadAfter(events[..at])
    ensures ColumnAfter(events[..end]) == ColumnAfter(events[..at])
  {
    hide AlignmentsAfter, InHeadAfter, ColumnAfter;
    CalloutTaken(events, at);
    SeenSame(events, at);
    SeenSame(events, at + 1);
    SeenSame(events, at + 2);
    if end == at + 4 {
      SeenSame(events, at + 3);
    }
  }

  /** What `Quoted` writes of a callout. */
  lemma CalloutWrites(shift: nat, st: State, events: seq<Event>, at: nat) returns (end: nat)
    requires OpensCallout(events, at) && !IsTaken(events, at)
    ensures at + 3 <= end <= |events| && end == if IsTaken(events, at + 3) then at + 4 else at + 3
    ensures var (next, rest) := Quoted(st, events[at + 1..]);
      && rest == events[end..] && next.table == st.table
      && next.output == st.output + CalloutEvents(shift, events, at)
  {
    CalloutTaken(events, at);
    CalloutShown(shift, events, at);
    hide Shown, CalloutHtml, Strip;
    var rest := events[at + 1..];
    var (mark, text) := CalloutAt(events, at);
    assert rest[1] == events[at + 2] && Marked(CALLOUTS, rest, 1) == Some((mark, text));
    assert rest[2..] == events[at + 3..];
    var title := Html(CalloutHtml(mark));
    end := if IsTaken(events, at + 3) then at + 4 else at + 3;
    var begun := st.(quotes := st.quotes + [true], output := st.output + [title]);
    assert Quoted(st, rest) == CalloutBegun(begun, text, rest[2..]);
    assert end == at + 4 ==> rest[2..][1..] == events[end..];
  }

  lemma TitleIsContent(mark: Mark)
    ensures Html(CalloutHtml(mark)) != Html(CLOSE_CALLOUT)
  {
    hide CalloutHtml;
    MarkdownNesting.FormsAre(mark, false, NoAlignment, None);
  }

  lemma CalloutContent(shift: nat, events: seq<Event>, at: nat)
    requires OpensCallout(events, at) && !IsTaken(events, at)
    ensures AllContent(CalloutEvents(shift, events, at))
  {
    CalloutShown(shift, events, at);
    hide Shown, CalloutHtml;
    TitleIsContent(CalloutAt(events, at).0);
  }

  function CalloutEvents(shift: nat, events: seq<Event>, at: nat): seq<Event>
    requires at + 3 <= |events|
  {
    Shown(shift, events, at) + Shown(shift, events, at + 1) + Shown(shift, events, at + 2)
  }

  lemma CalloutBefore(shift: nat, events: seq<Event>, at: nat, end: nat)
    requires OpensCallout(events, at) && !IsTaken(events, at)
    requires end == if IsTaken(events, at + 3) then at + 4 else at + 3
    ensures end <= |events| && !IsTaken(events, end)
    ensures ShownBefore(shift, events, end) == ShownBefore(shift, events, at) + CalloutEvents(shift, events, at)
  {
    CalloutTaken(events, at);
    CalloutShown(shift, events, at);
    hide Shown, Strip;
    ShownThrice(shift, events, at);
    if end == at + 4 {
      assert ShownBefore(shift, events, end) == ShownBefore(shift, events, at + 3) + [];
    }
  }

  lemma CalloutKeeps(shift: nat, st: State, events: seq<Event>, at: nat) returns (end: nat)
    requires OpensCallout(events, at) && WroteBefore(shift, st, events, at)
    ensures var (next, rest) := Step(shift, st, events[at], events[at + 1..]);
      at < end <= |events| && rest == events[end..] && WroteBefore(shift, next, events, end)
  {
    end := CalloutWrites(shift, st, events, at);
    hide Strip, Shown, Quoted, Content, ShownBefore, IsTaken, AllContent;
    CalloutSeen(events, at, end);
    CalloutContent(shift, events, at);
    ContentMore(st.output, CalloutEvents(shift, events, at));
    CalloutBefore(shift, events, at, end);
  }

  /** What a cell shows: its start and its status, and then the text that its marker opened. */
  function CellShown(shift: nat, events: seq<Event>, at: nat): seq<Event>
    requires at < |events|
  {
    CellAt(events, at) + if OpensStatus(events, at) then Shown(shift, events, at + 1) else []
  }

  lemma CellIsContent(head: bool, alignment: Alignment, status: Option<Mark>, mark: Mark)
    ensures Html(CellHtml(head, alignment, status)) != Html(CLOSE_CALLOUT)
    ensures Html(StatusHtml(mark)) != Html(CLOSE_CALLOUT)
  {
    hide CellHtml, StatusHtml;
    MarkdownNesting.FormsAre(mark, head, alignment, status);
  }

  lemma CellContent(shift: nat, events: seq<Event>, at: nat)
    requires at < |events| && events[at] == Start(TableCell) && !IsTaken(events, at)
    ensures AllContent(CellShown(shift, events, at))
  {
    CellTaken(shift, events, at);
    var seen := events[..at];
    var alignments, column := AlignmentsAfter(seen), ColumnAfter(seen);
    var alignment := if column < |alignments| then alignments[column] else NoAlignment;
    hide CellHtml, StatusHtml, Strip, AlignmentsAfter, ColumnAfter, InHeadAfter, Shown, IsTaken;
    if OpensStatus(events, at) {
      var mark := StatusAt(events, at).0;
      CellIsContent(InHeadAfter(seen), alignment, Some(mark), mark);
    } else {
      CellIsContent(InHeadAfter(seen), alignment, None, Mark("", "", "", ""));
    }
  }

  lemma CellTaken(shift: nat, events: seq<Event>, at: nat)
    requires at < |events| && events[at] == Start(TableCell) && !IsTaken(events, at)
    ensures Shown(shift, events, at) == CellAt(events, at)
    ensures OpensStatus(events, at) ==>
              var text := StatusAt(events, at).1;
              && !IsTaken(events, at + 2)
              && Shown(shift, events, at + 1) ==
                 if text == "" && at + 2 < |events| && events[at + 2] == End(TableCellEnd) then []
                     else [Text(" " + text)]
    ensures !OpensStatus(events, at) ==> !IsTaken(events, at + 1)
  {
    hide Strip, CellAt;
  }

  function StatusShown(text: string, left: seq<Event>): seq<Event> {
    if text == "" && left != [] && left[0] == End(TableCellEnd) then [] else [Text(" " + text)]
  }

  lemma CelledWrites(st: State, rest: seq<Event>, alignment: Alignment)
    requires alignment ==
               if st.table.column < |st.table.alignments| then st.table.alignments[st.table.column] else NoAlignment
    ensures var (next, left), head := Celled(st, rest), st.table.inHead;
      next.table == st.table &&
      match Marked(STATUSES, rest, 0)
      case None => left == rest && next.output == st.output + [Html(CellHtml(head, alignment, None))]
      case Some((mark, text)) =>
        && left == rest[1..]
        && next.output == st.output + ([Html(CellHtml(head, alignment, Some(mark))), Html(StatusHtml(mark))]
                                       + StatusShown(text, left))
  {
    hide CellHtml, StatusHtml, Strip;
    assert " " + "" == " ";
  }

  /** What `Celled` writes of a cell. */
  lemma CellWrites(shift: nat, st: State, events: seq<Event>, at: nat) returns (end: nat)
    requires at < |events| && events[at] == Start(TableCell) && WroteBefore(shift, st, events, at)
    ensures end == if OpensStatus(events, at) then at + 2 else at + 1
    ensures var (next, rest) := Celled(st, events[at + 1..]);
      && end <= |events| && rest == events[end..] && next.table == st.table
      && next.output == st.output + CellShown(shift, events, at)
  {
    CellTaken(shift, events, at);
    end := if OpensStatus(events, at) then at + 2 else at + 1;
    var rest, seen := events[at + 1..], events[..at];
    var alignments, column := AlignmentsAfter(seen), ColumnAfter(seen);
    CelledWrites(st, rest, if column < |alignments| then alignments[column] else NoAlignment);
    hide Celled, CellHtml, StatusHtml, Strip, AlignmentsAfter, ColumnAfter, InHeadAfter, ShownBefore, Content, Shown,
      IsTaken;
    if OpensStatus(events, at) {
      assert rest[0] == events[at + 1] && rest[1..] == events[end..];
    } else {
      assert |rest| > 0 ==> rest[0] == events[at + 1];
      assert CellAt(events, at) + [] == CellAt(events, at);
    }
  }

  lemma CellSeen(shift: nat, events: seq<Event>, at: nat, end: nat)
    requires at < |events| && events[at] == Start(TableCell) && !IsTaken(events, at)
    requires end == if OpensStatus(events, at) then at + 2 else at + 1
    ensures AlignmentsAfter(events[..end]) == AlignmentsAfter(events[..at])
    ensures InHeadAfter(events[..end]) == InHeadAfter(events[..at])
    ensures ColumnAfter(events[..end]) == ColumnAfter(events[..at])
    ensures ShownBefore(shift, events, end) == ShownBefore(shift, events, at) + CellShown(shift, events, at)
    ensures !IsTaken(events, end)
  {
    CellTaken(shift, events, at);
    hide Strip, CellAt, AlignmentsAfter, ColumnAfter, InHeadAfter, Shown, IsTaken;
    SeenSame(events, at);
    assert CellAt(events, at) + [] == CellAt(events, at);
    if end == at + 2 {
      SeenSame(events, at + 1);
      Associate(ShownBefore(shift, events, at), CellAt(events, at), Shown(shift, events, at + 1));
    }
  }

  lemma CellKeeps(shift: nat, st: State, events: seq<Event>, at: nat) returns (end: nat)
    requires at < |events| && events[at] == Start(TableCell) && WroteBefore(shift, st, events, at)
    ensures var (next, rest) := Step(shift, st, events[at], events[at + 1..]);
      at < end <= |events| && rest == events[end..] && WroteBefore(shift, next, events, end)
  {
    end := CellWrites(shift, st, events, at);
    CellSeen(shift, events, at, end);
    CellContent(shift, events, at);
    hide Celled, Strip, CellShown, AlignmentsAfter, ColumnAfter, InHeadAfter, ShownBefore, Content, IsTaken;
    ContentMore(st.output, CellShown(shift, events, at));
  }

  // Other events.

  lemma EndWrites(shift: nat, st: State, end: TagEnd)
    ensures Content(Ended(shift, st, end).output) == Content(st.output)
  {
    hide Content;
    var next := Ended(shift, st, end);
    if next.output != st.output {
      var written := next.output[|st.output|];
      assert next.output == st.output + [written];
      ContentOfMore(st.output, written);
    }
  }

  lemma AloneWrites(shift: nat, st: State, event: Event, rest: seq<Event>)
    requires !event.End? && event != Start(TableCell)
    requires event == Start(BlockQuote) && rest != [] && rest[0] == Start(Paragraph) ==>
               Marked(CALLOUTS, rest, 1) == None
    ensures var (next, left) := Step(shift, st, event, rest);
      left == rest && next.output == st.output + Alone(shift, event)
  {
    hide Strip, CalloutHtml, IsWebLink, Celled, Ended;
  }

  /** What a single event writes. */
  lemma OtherWrites(shift: nat, st: State, events: seq<Event>, at: nat)
    requires at < |events| && !IsTaken(events, at) && events[at] != Start(TableCell) && !OpensCallout(events, at)
    ensures var (next, rest) := Step(shift, st, events[at], events[at + 1..]);
      rest == events[at + 1..] && Content(next.output) == Content(st.output) + Shown(shift, events, at)
  {
    var event, written := events[at], Alone(shift, events[at]);
    assert Shown(shift, events, at) == written;
    if event.End? {
      EndWrites(shift, st, event.end);
    } else {
      if |events| > at + 2 {
        assert events[at + 1..][0] == events[at + 1] && events[at + 1..][1] == events[at + 2];
      }
      AloneWrites(shift, st, event, events[at + 1..]);
      hide Shown, Strip, IsTaken, Content, Step;
      if written != [] {
        assert written == [written[0]];
        ContentOfMore(st.output, written[0]);
      }
    }
  }

  lemma OtherSeen(shift: nat, st: State, events: seq<Event>, at: nat)
    requires at < |events| && WroteBefore(shift, st, events, at)
    requires events[at] != Start(TableCell) && !OpensCallout(events, at)
    ensures !IsTaken(events, at + 1)
    ensures Step(shift, st, events[at], events[at + 1..]).0.table == TableState(
        AlignmentsAfter(events[..at + 1]), InHeadAfter(events[..at + 1]), ColumnAfter(events[..at + 1]))
  {
    hide Strip, CalloutHtml, ShownBefore, Shown, Content;
    SeenMore(events, at);
    if |events| > at + 2 {
      assert events[at + 1..][0] == events[at + 1] && events[at + 1..][1] == events[at + 2];
    }
  }

  lemma StepKeeps(shift: nat, st: State, events: seq<Event>, at: nat) returns (end: nat)
    requires at < |events| && WroteBefore(shift, st, events, at)
    ensures var (next, rest) := Step(shift, st, events[at], events[at + 1..]);
      at < end <= |events| && rest == events[end..] && WroteBefore(shift, next, events, end)
  {
    if OpensCallout(events, at) {
      end := CalloutKeeps(shift, st, events, at);
    } else if events[at] == Start(TableCell) {
      end := CellKeeps(shift, st, events, at);
    } else {
      hide Step, Shown, Content, IsTaken;
      end := at + 1;
      OtherWrites(shift, st, events, at);
      OtherSeen(shift, st, events, at);
    }
  }

  lemma {:induction false} RewriteShows(shift: nat, st: State, events: seq<Event>, at: nat)
    requires at <= |events| && WroteBefore(shift, st, events, at)
    ensures Content(Rewritten(shift, st, events[at..]).output) == ShownBefore(shift, events, |events|)
    decreases |events| - at
  {
    hide WroteBefore, Step, Content, ShownBefore;
    if at == |events| {
      EndOfRewrite(shift, st, events);
    } else {
      var end := StepKeeps(shift, st, events, at);
      assert events[at..][1..] == events[at + 1..];
      RewriteShows(shift, Step(shift, st, events[at], events[at + 1..]).0, events, end);
    }
  }

  lemma EndOfRewrite(shift: nat, st: State, events: seq<Event>)
    requires WroteBefore(shift, st, events, |events|)
    ensures Content(Rewritten(shift, st, events[|events|..]).output) == ShownBefore(shift, events, |events|)
  {
  }

  /** For every list of events, all that the page holds but ends is what the events show, in their order. */
  lemma {:induction false} OutputIsWhatIsShown(shift: nat, events: seq<Event>)
    ensures Content(Rewritten(shift, Initial, events).output) == ShownBefore(shift, events, |events|)
  {
    assert events[..0] == [] && events[0..] == events;
    RewriteShows(shift, Initial, events, 0);
  }

  // Text.

  /** What the events say: text, which HTML is too, code, breaks, rules and task markers. */
  function Said(event: Event): seq<Event> {
    match event
    case Start(_) => []
    case End(_) => []
    case Html(html) => [Text(html)]
    case InlineHtml(html) => [Text(html)]
    case _ => [event]
  }

  function SaidBefore(events: seq<Event>, at: nat): seq<Event>
    requires at <= |events|
  {
    if at == 0 then [] else SaidBefore(events, at - 1) + Said(events[at - 1])
  }

  /** Text, code, breaks, rules and task markers of the page. */
  function Spoken(page: seq<Event>): seq<Event> {
    if page == [] then []
    else
      var last := page[|page| - 1];
      Spoken(page[..|page| - 1]) + if last.Start? || last.End? || last.Html? then [] else [last]
  }

  lemma {:induction false} SpokenOfBoth(a: seq<Event>, b: seq<Event>)
    ensures Spoken(a + b) == Spoken(a) + Spoken(b)
    decreases |b|
  {
    if b == [] {
      assert a + b == a;
    } else {
      assert (a + b)[..|a + b| - 1] == a + b[..|b| - 1];
      SpokenOfBoth(a, b[..|b| - 1]);
    }
  }

  lemma {:induction false} SpokenIsContent(page: seq<Event>)
    ensures Spoken(Content(page)) == Spoken(page)
  {
    if page != [] {
      var before, last := page[..|page| - 1], page[|page| - 1];
      SpokenIsContent(before);
      SpokenOfBoth(Content(before), if last.End? || last == Html(CLOSE_CALLOUT) then [] else [last]);
      assert [last][..0] == [];
    }
  }

  lemma NothingIsSpoken()
    ensures Spoken([]) == []
  {
  }

  lemma SpokenOfOne(event: Event)
    ensures Spoken([event]) == if event.Start? || event.End? || event.Html? then [] else [event]
  {
    assert [event][..0] == [];
  }

  ghost predicate NoMarkers(events: seq<Event>) {
    forall i: int :: !OpensCallout(events, i) && !OpensStatus(events, i)
  }

  lemma OneIsSaid(shift: nat, events: seq<Event>, at: nat)
    requires at < |events| && NoMarkers(events)
    ensures Spoken(Shown(shift, events, at)) == Said(events[at])
  {
    var shown, event := Shown(shift, events, at), events[at];
    assert !OpensCallout(events, at) && !OpensStatus(events, at) && !OpensCallout(events, at - 3);
    assert !OpensCallout(events, at - 1) && !OpensCallout(events, at - 2) && !OpensStatus(events, at - 1);
    hide OpensCallout, OpensStatus, CellHtml, AlignmentsAfter, ColumnAfter, InHeadAfter, NoMarkers, IsWebLink, Spoken;
    NothingIsSpoken();
    if shown != [] {
      assert shown == [shown[0]];
      SpokenOfOne(shown[0]);
    }
  }

  lemma {:induction false} ShownIsSaid(shift: nat, events: seq<Event>, at: nat)
    requires at <= |events| && NoMarkers(events)
    ensures Spoken(ShownBefore(shift, events, at)) == SaidBefore(events, at)
  {
    hide NoMarkers, Shown, Spoken;
    if at == 0 {
      NothingIsSpoken();
    } else {
      ShownIsSaid(shift, events, at - 1);
      OneIsSaid(shift, events, at - 1);
      SpokenOfBoth(ShownBefore(shift, events, at - 1), Shown(shift, events, at - 1));
    }
  }

  /** Without markers, the page has exactly the text and code of the events, HTML as text. */
  lemma {:induction false} TextIsKept(shift: nat, events: seq<Event>)
    requires NoMarkers(events)
    ensures Spoken(Rewritten(shift, Initial, events).output) == SaidBefore(events, |events|)
  {
    OutputIsWhatIsShown(shift, events);
    ShownIsSaid(shift, events, |events|);
    SpokenIsContent(Rewritten(shift, Initial, events).output);
  }

  // The inline form.

  /** The text and code of a page, each break a space. */
  function Words(page: seq<Event>): string {
    if page == [] then ""
    else
      var last := page[|page| - 1];
      Words(page[..|page| - 1]) +
      match last
      case Text(text) => text
      case Code(code) => code
      case SoftBreak => " "
      case HardBreak => " "
      case _ => ""
  }

  /** The inline markup of a page: its code, and the starts and ends of emphasis and links. */
  function Markup(page: seq<Event>): seq<Event> {
    if page == [] then []
    else
      var last := page[|page| - 1];
      Markup(page[..|page| - 1]) +
      match last
      case Start(tag) =>
        if tag == Emphasis || tag == Strong || tag == Strikethrough || tag.Link? then [last] else []
      case End(end) =>
        if end == EmphasisEnd || end == StrongEnd || end == StrikethroughEnd || end == LinkEnd then [last] else []
      case Code(_) => [last]
      case _ => []
  }

  lemma WordsOfMore(page: seq<Event>, event: Event)
    ensures Words(page + [event]) == Words(page) +
              (match event case Text(text) => text case Code(code) => code case SoftBreak => " " case HardBreak => " "
               case _ => "")
  {
    assert (page + [event])[..|page|] == page;
  }

  lemma MarkupOfMore(page: seq<Event>, event: Event)
    ensures Markup(page + [event]) == Markup(page) +
              if event.Code? || (event.Start? && IsInline(ToEnd(event.tag))) || (event.End? && IsInline(event.end))
              then [event] else []
  {
    assert (page + [event])[..|page|] == page;
  }

  /** The inline form keeps text, code, emphasis and links, and turns breaks into spaces. */
  lemma {:induction false} InlineKeepsWords(page: seq<Event>)
    ensures Words(Inline(page)) == Words(page) && Markup(Inline(page)) == Markup(page)
    decreases |page|
  {
    hide Words, Markup;
    if page != [] {
      var before, last := page[..|page| - 1], page[|page| - 1];
      assert page == before + [last];
      InlineKeepsWords(before);
      WordsOfMore(before, last);
      MarkupOfMore(before, last);
      var inline := InlineOf(last);
      if inline == [] {
        assert Inline(before) + [] == Inline(before);
        assert Words(before) + "" == Words(before) && Markup(before) + [] == Markup(before);
      } else {
        WordsOfMore(Inline(before), inline[0]);
        MarkupOfMore(Inline(before), inline[0]);
      }
    }
  }
}
