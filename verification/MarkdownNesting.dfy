/**
 The rewritten events of well-nested Markdown are well-nested HTML, and only of safe kinds.

 `Nest` reads the events as the HTML writer does: a callout's `<div>` and a cell written by hand count
 as tags, and the end of a cell closes the `<th>` or `<td>` that the writer's own table state names.
 */
module MarkdownNesting {
  import opened Wrappers
  import opened Text
  import opened MarkdownHtml

  // The HTML.

  /** What is open on the page. */
  datatype Open = Element(end: TagEnd) | Division | Cell(head: bool)

  /** What is open, the innermost last, and whether the writer is in the head of a table. */
  datatype Page = Page(open: seq<Open>, head: bool)

  datatype Form = OpenDivision | CloseDivision | OpenCell(head: bool) | Span | Unknown

  /** Which of the forms of HTML the rewrite writes `html` is, by its first characters. */
  function FormOf(html: string): Form {
    if |html| < 3 then Unknown
    else if html[1] == '/' then CloseDivision
    else if html[1] == 'd' then OpenDivision
    else if html[1] == 't' then OpenCell(html[2] == 'h')
    else if html[1] == 's' then Span
    else Unknown
  }

  function Pushed(page: Page, open: Open): Option<Page> {
    Some(page.(open := page.open + [open]))
  }

  function Closed(page: Page, open: Open): Option<Page> {
    if page.open != [] && page.open[|page.open| - 1] == open
    then Some(page.(open := page.open[..|page.open| - 1]))
    else None
  }

  function Nest(page: Page, event: Event): Option<Page> {
    match event
    case Start(TableHead) => Pushed(page.(head := true), Element(TableHeadEnd))
    case Start(tag) => Pushed(page, Element(ToEnd(tag)))
    case End(TableHeadEnd) => Closed(page.(head := false), Element(TableHeadEnd))
    case End(TableCellEnd) => Closed(page, Cell(page.head))
    case End(end) => Closed(page, Element(end))
    case Html(html) =>
      (match FormOf(html)
       case OpenDivision => Pushed(page, Division)
       case CloseDivision => Closed(page, Division)
       case OpenCell(head) => Pushed(page, Cell(head))
       case Span => Some(page)
       case Unknown => None)
    case InlineHtml(_) => None
    case _ => Some(page)
  }

  function NestAll(events: seq<Event>): Option<Page> {
    if events == [] then Some(Page([], false))
    else
      match NestAll(events[..|events| - 1])
      case None => None
      case Some(page) => Nest(page, events[|events| - 1])
  }

  // The parser's events.

  /** What is open after `event`: in a table cell, only inline markup opens and closes. */
  function Parse(open: seq<TagEnd>, event: Event): Option<seq<TagEnd>> {
    match event
    case Start(tag) =>
      if TableCellEnd in open && !IsInline(ToEnd(tag)) && ToEnd(tag) != ImageEnd then None
          else Some(open + [ToEnd(tag)])
    case End(end) =>
      if open == [] || open[|open| - 1] != end then None
      else if TableCellEnd in open && !IsInline(end) && end != ImageEnd && end != TableCellEnd then None
      else Some(open[..|open| - 1])
    case _ => Some(open)
  }

  ghost predicate WellNested(open: seq<TagEnd>, events: seq<Event>)
    decreases |events|
  {
    if events == [] then open == []
    else Parse(open, events[0]).Some? && WellNested(Parse(open, events[0]).value, events[1..])
  }

  // What is open in the events and what is open on the page.

  ghost predicate Relates(shift: nat, open: seq<TagEnd>, quotes: seq<bool>, links: seq<bool>, page: seq<Open>,
        head: bool)
    decreases |open|
  {
    if open == [] then quotes == [] && links == [] && page == []
    else
      var outer, end := open[..|open| - 1], open[|open| - 1];
      match end
      case ImageEnd => Relates(shift, outer, quotes, links, page, head)
      case LinkEnd =>
        links != [] &&
        (if links[|links| - 1]
         then
           && page != [] && page[|page| - 1] == Element(LinkEnd)
           && Relates(shift, outer, quotes, links[..|links| - 1], page[..|page| - 1], head)
         else Relates(shift, outer, quotes, links[..|links| - 1], page, head))
      case BlockQuoteEnd =>
        && quotes != [] && page != []
        && page[|page| - 1] == (if quotes[|quotes| - 1] then Division else Element(BlockQuoteEnd))
        && Relates(shift, outer, quotes[..|quotes| - 1], links, page[..|page| - 1], head)
      case _ =>
        && page != [] && page[|page| - 1] == OnPage(shift, end, head)
        && Relates(shift, outer, quotes, links, page[..|page| - 1], head)
  }

  function OnPage(shift: nat, end: TagEnd, head: bool): Open {
    match end
    case HtmlBlockEnd => Element(ParagraphEnd)
    case HeadingEnd(level) => Element(HeadingEnd(Shift(shift, level)))
    case TableCellEnd => Cell(head)
    case _ => Element(end)
  }

  /** The head of a table matters only to cells. */
  lemma {:induction false} RelatesAnyHead(shift: nat, open: seq<TagEnd>, quotes: seq<bool>, links: seq<bool>,
        page: seq<Open>, a: bool, b: bool)
    requires TableCellEnd !in open && Relates(shift, open, quotes, links, page, a)
    ensures Relates(shift, open, quotes, links, page, b)
    decreases |open|
  {
    if open != [] {
      var outer, end := open[..|open| - 1], open[|open| - 1];
      assert end in open && forall e :: e in outer ==> e in open;
      if end == ImageEnd {
        RelatesAnyHead(shift, outer, quotes, links, page, a, b);
      } else if end == LinkEnd {
        RelatesAnyHead(shift, outer, quotes, links[..|links| - 1],
                       if links[|links| - 1] then page[..|page| - 1] else page, a, b);
      } else if end == BlockQuoteEnd {
        RelatesAnyHead(shift, outer, quotes[..|quotes| - 1], links, page[..|page| - 1], a, b);
      } else {
        RelatesAnyHead(shift, outer, quotes, links, page[..|page| - 1], a, b);
      }
    }
  }

  /** The rewrite `st` wrote HTML that leaves open on the page what the parser's events leave open. */
  ghost predicate Inv(shift: nat, st: State, open: seq<TagEnd>, page: seq<Open>) {
    && NestAll(st.output) == Some(Page(page, st.table.inHead))
    && Relates(shift, open, st.quotes, st.links, page, st.table.inHead)
  }

  lemma RelatesQuote(shift: nat, open: seq<TagEnd>, quotes: seq<bool>, links: seq<bool>, page: seq<Open>, head: bool,
        callout: bool)
    requires Relates(shift, open, quotes, links, page, head)
    ensures Relates(shift, open + [BlockQuoteEnd], quotes + [callout], links,
                    page + [if callout then Division else Element(BlockQuoteEnd)], head)
  {
    var shown := if callout then Division else Element(BlockQuoteEnd);
    assert (open + [BlockQuoteEnd])[..|open|] == open && (page + [shown])[..|page|] == page;
    assert (quotes + [callout])[..|quotes|] == quotes;
  }

  // The fixed forms.

  lemma FormsAre(mark: Mark, head: bool, alignment: Alignment, status: Option<Mark>)
    ensures FormOf(CalloutHtml(mark)) == OpenDivision
    ensures FormOf(CellHtml(head, alignment, status)) == OpenCell(head)
    ensures FormOf(StatusHtml(mark)) == Span
    ensures FormOf(CLOSE_CALLOUT) == CloseDivision
  {
    var callout, cell, span := CalloutHtml(mark), CellHtml(head, alignment, status), StatusHtml(mark);
    assert callout[1] == 'd';
    assert cell[1] == 't' && cell[2] == if head then 'h' else 'd';
    SpanStarts(mark);
  }

  lemma SpanStarts(mark: Mark)
    ensures |StatusHtml(mark)| > 2 && StatusHtml(mark)[1] == 's'
  {
    var start := "<span class=\"status\" role=\"img\" aria-label=\"";
    assert start[1] == 's';
    assert StatusHtml(mark) == start + (mark.title + "\">" + mark.symbol + "</span>");
  }

  // One step.

  /** A tag started that is written as `event`, open on the page as `shown`. */
  lemma WriteStart(shift: nat, st: State, open: seq<TagEnd>, page: seq<Open>, end: TagEnd, event: Event, shown: Open)
    requires Inv(shift, st, open, page)
    requires !end.ImageEnd? && !end.LinkEnd? && !end.BlockQuoteEnd? && shown == OnPage(shift, end, st.table.inHead)
    requires Nest(Page(page, st.table.inHead), event) == Some(Page(page + [shown], st.table.inHead))
    ensures Inv(shift, Push(st, [event]), open + [end], page + [shown])
  {
  }

  lemma StartHead(shift: nat, st: State, open: seq<TagEnd>, page: seq<Open>, head: bool)
    requires Inv(shift, st, open, page) && TableCellEnd !in open
    ensures NestAll(st.output) == Some(Page(page, st.table.inHead))
    ensures Relates(shift, open, st.quotes, st.links, page, head)
  {
    RelatesAnyHead(shift, open, st.quotes, st.links, page, st.table.inHead, head);
  }

  /** What a step leaves open in the parser's events and on the page. */
  datatype After = After(open: seq<TagEnd>, page: seq<Open>)

  ghost predicate StepKeeps(shift: nat, st: State, event: Event, rest: seq<Event>, after: After) {
    var (next, left) := Step(shift, st, event, rest);
    Inv(shift, next, after.open, after.page) && WellNested(after.open, left)
  }

  function CalloutOf(rest: seq<Event>): Option<(Mark, string)> {
    if rest != [] && rest[0] == Start(Paragraph) then Marked(CALLOUTS, rest, 1) else None
  }

  lemma TitleWrites(shift: nat, st: State, open: seq<TagEnd>, page: seq<Open>, mark: Mark)
    requires Inv(shift, st, open, page)
    ensures Inv(shift, Push(st.(quotes := st.quotes + [true]), [Html(CalloutHtml(mark))]), open + [BlockQuoteEnd],
        page + [Division])
  {
    FormsAre(mark, false, NoAlignment, None);
    hide Relates, CalloutHtml;
    RelatesQuote(shift, open, st.quotes, st.links, page, st.table.inHead, true);
  }

  lemma {:induction false} QuoteKeeps(shift: nat, st: State, open: seq<TagEnd>, page: seq<Open>,
        rest: seq<Event>) returns (after: After)
    requires Inv(shift, st, open, page) && WellNested(open, [Start(BlockQuote)] + rest)
    ensures StepKeeps(shift, st, Start(BlockQuote), rest, after)
  {
    assert ([Start(BlockQuote)] + rest)[1..] == rest;
    var inside := open + [BlockQuoteEnd];
    if CalloutOf(rest) == None {
      after := After(inside, page + [Element(BlockQuoteEnd)]);
    } else {
      var (mark, text) := CalloutOf(rest).value;
      TitleWrites(shift, st, open, page, mark);
      var titled := Push(st.(quotes := st.quotes + [true]), [Html(CalloutHtml(mark))]);
      after := CalloutKeeps(shift, titled, inside, page + [Division], rest, text);
    }
  }

  lemma InsideParagraph(open: seq<TagEnd>, events: seq<Event>)
    requires WellNested(open, events) && |events| >= 2 && events[0] == Start(Paragraph) && events[1].Text?
    ensures WellNested(open + [ParagraphEnd], events[2..])
    ensures |events| > 2 && (events[2] == SoftBreak || events[2] == HardBreak) ==>
        WellNested(open + [ParagraphEnd], events[2..][1..])
    ensures |events| > 2 && events[2] == End(ParagraphEnd) ==> WellNested(open, events[2..][1..])
  {
    assert events[1..][1..] == events[2..] && WellNested(open + [ParagraphEnd], events[1..]);
    assert (open + [ParagraphEnd])[..|open|] == open;
  }

  /** What a callout leaves open: its paragraph, unless that held nothing but the marker. */
  function AfterCallout(open: seq<TagEnd>, page: seq<Open>, text: string, rest: seq<Event>): After {
    if text == "" && rest != [] && rest[0] == End(ParagraphEnd) then After(open, page)
    else After(open + [ParagraphEnd], page + [Element(ParagraphEnd)])
  }

  lemma PushTwo(st: State, a: Event, b: Event)
    ensures Push(Push(st, [a]), [b]) == Push(st, [a, b])
  {
    assert st.output + [a] + [b] == st.output + [a, b];
  }

  lemma ParagraphWrites(shift: nat, st: State, open: seq<TagEnd>, page: seq<Open>, text: string)
    requires Inv(shift, st, open, page)
    ensures Inv(shift, Push(st, [Start(Paragraph)]), open + [ParagraphEnd], page + [Element(ParagraphEnd)])
    ensures Inv(shift, Push(st, [Start(Paragraph), Text(text)]), open + [ParagraphEnd], page + [Element(ParagraphEnd)])
  {
    WriteStart(shift, st, open, page, ParagraphEnd, Start(Paragraph), Element(ParagraphEnd));
    PushTwo(st, Start(Paragraph), Text(text));
  }

  lemma CalloutWrites(shift: nat, st: State, open: seq<TagEnd>, page: seq<Open>, text: string, rest: seq<Event>)
    requires Inv(shift, st, open, page)
    ensures var after := AfterCallout(open, page, text, rest);
      Inv(shift, CalloutBegun(st, text, rest).0, after.open, after.page)
  {
    hide Relates, NestAll;
    ParagraphWrites(shift, st, open, page, text);
  }

  lemma CalloutReads(st: State, open: seq<TagEnd>, page: seq<Open>, text: string, events: seq<Event>)
    requires WellNested(open, events) && |events| >= 2 && events[0] == Start(Paragraph) && events[1].Text?
    ensures WellNested(AfterCallout(open, page, text, events[2..]).open, CalloutBegun(st, text, events[2..]).1)
  {
    InsideParagraph(open, events);
  }

  lemma CalloutKeeps(shift: nat, st: State, open: seq<TagEnd>, page: seq<Open>, events: seq<Event>, text: string)
    returns (after: After)
    requires Inv(shift, st, open, page) && WellNested(open, events)
    requires |events| >= 2 && events[0] == Start(Paragraph) && events[1].Text?
    ensures var (next, left) := CalloutBegun(st, text, events[2..]);
      Inv(shift, next, after.open, after.page) && WellNested(after.open, left)
  {
    after := AfterCallout(open, page, text, events[2..]);
    CalloutWrites(shift, st, open, page, text, events[2..]);
    CalloutReads(st, open, page, text, events);
  }

  lemma StatusKeeps(shift: nat, st: State, open: seq<TagEnd>, page: seq<Open>, mark: Mark, text: string)
    requires Inv(shift, st, open, page)
    ensures Inv(shift, Push(st, [Html(StatusHtml(mark))]), open, page)
    ensures Inv(shift, Push(Push(st, [Html(StatusHtml(mark))]), [Text(text)]), open, page)
  {
    FormsAre(mark, false, NoAlignment, None);
  }

  lemma {:induction false} CellWrites(shift: nat, st: State, open: seq<TagEnd>, page: seq<Open>, rest: seq<Event>)
    requires Inv(shift, st, open, page)
    ensures Inv(shift, Celled(st, rest).0, open + [TableCellEnd], page + [Cell(st.table.inHead)])
  {
    var status := Marked(STATUSES, rest, 0);
    var alignment := if st.table.column < |st.table.alignments| then st.table.alignments[st.table.column]
        else NoAlignment;
    var mark := if status.Some? then Some(status.value.0) else None;
    var html, shown := Html(CellHtml(st.table.inHead, alignment, mark)), Cell(st.table.inHead);
    FormsAre(Mark("", "", "", ""), st.table.inHead, alignment, mark);
    hide Relates, NestAll, CellHtml, StatusHtml;
    WriteStart(shift, st, open, page, TableCellEnd, html, shown);
    if status.Some? {
      var inside, shownInside := open + [TableCellEnd], page + [shown];
      StatusKeeps(shift, Push(st, [html]), inside, shownInside, status.value.0, " " + status.value.1);
      StatusKeeps(shift, Push(st, [html]), inside, shownInside, status.value.0, " ");
    }
  }

  lemma CellReads(st: State, open: seq<TagEnd>, rest: seq<Event>)
    requires WellNested(open, [Start(TableCell)] + rest)
    ensures WellNested(open + [TableCellEnd], Celled(st, rest).1)
  {
    assert ([Start(TableCell)] + rest)[1..] == rest;
  }

  lemma {:induction false} CellKeeps(shift: nat, st: State, open: seq<TagEnd>, page: seq<Open>,
        rest: seq<Event>) returns (after: After)
    requires Inv(shift, st, open, page) && WellNested(open, [Start(TableCell)] + rest)
    ensures StepKeeps(shift, st, Start(TableCell), rest, after)
  {
    CellWrites(shift, st, open, page, rest);
    CellReads(st, open, rest);
    after := After(open + [TableCellEnd], page + [Cell(st.table.inHead)]);
  }

  lemma LinkKeeps(shift: nat, st: State, open: seq<TagEnd>, page: seq<Open>, tag: Tag,
        rest: seq<Event>) returns (after: After)
    requires Inv(shift, st, open, page) && WellNested(open, [Start(tag)] + rest) && tag.Link?
    ensures StepKeeps(shift, st, Start(tag), rest, after)
  {
    assert ([Start(tag)] + rest)[1..] == rest;
    var kept := tag.email || IsWebLink(tag.url);
    after := After(open + [LinkEnd], if kept then page + [Element(LinkEnd)] else page);
  }

  lemma StartKeeps(shift: nat, st: State, open: seq<TagEnd>, page: seq<Open>, tag: Tag,
        rest: seq<Event>) returns (after: After)
    requires Inv(shift, st, open, page) && WellNested(open, [Start(tag)] + rest)
    ensures StepKeeps(shift, st, Start(tag), rest, after)
  {
    assert ([Start(tag)] + rest)[1..] == rest;
    if tag == BlockQuote {
      after := QuoteKeeps(shift, st, open, page, rest);
    } else if tag == TableCell {
      after := CellKeeps(shift, st, open, page, rest);
    } else if tag.Link? {
      after := LinkKeeps(shift, st, open, page, tag, rest);
    } else if tag.Image? {
      after := After(open + [ImageEnd], page);
      assert after.open[..|open|] == open;
    } else if tag == TableHead {
      StartHead(shift, st, open, page, true);
      after := After(open + [TableHeadEnd], page + [Element(TableHeadEnd)]);
    } else {
      var end := ToEnd(tag);
      var shown := OnPage(shift, end, st.table.inHead);
      var written := if tag == HtmlBlock then Start(Paragraph)
          else if tag.Heading? then Start(Heading(Shift(shift, tag.level))) else Start(tag);
      WriteStart(shift, st, open, page, end, written, shown);
      after := After(open + [end], page + [shown]);
    }
  }

  /** The end of what is open on the page as `shown`, written as `event`. */
  lemma WriteEnd(shift: nat, st: State, open: seq<TagEnd>, page: seq<Open>, event: Event, next: State)
    requires Inv(shift, st, open, page) && open != [] && page != [] && next.output == st.output + [event]
    requires Nest(Page(page, st.table.inHead), event) == Some(Page(page[..|page| - 1], next.table.inHead))
    requires Relates(shift, open[..|open| - 1], next.quotes, next.links, page[..|page| - 1], next.table.inHead)
    ensures Inv(shift, next, open[..|open| - 1], page[..|page| - 1])
  {
  }

  lemma EndQuoteKeeps(shift: nat, st: State, open: seq<TagEnd>, page: seq<Open>)
    requires Inv(shift, st, open, page) && open != [] && open[|open| - 1] == BlockQuoteEnd
    ensures page != [] && Inv(shift, Ended(shift, st, BlockQuoteEnd), open[..|open| - 1], page[..|page| - 1])
  {
    FormsAre(Mark("", "", "", ""), false, NoAlignment, None);
    WriteEnd(shift, st, open, page, if LastIsTrue(st.quotes) then Html(CLOSE_CALLOUT) else End(BlockQuoteEnd),
        Ended(shift, st, BlockQuoteEnd));
  }

  lemma EndLinkKeeps(shift: nat, st: State, open: seq<TagEnd>, page: seq<Open>) returns (left: seq<Open>)
    requires Inv(shift, st, open, page) && open != [] && open[|open| - 1] == LinkEnd
    ensures Inv(shift, Ended(shift, st, LinkEnd), open[..|open| - 1], left)
  {
    left := page;
    if LastIsTrue(st.links) {
      WriteEnd(shift, st, open, page, End(LinkEnd), Ended(shift, st, LinkEnd));
      left := page[..|page| - 1];
    }
  }

  lemma {:induction false} EndOtherKeeps(shift: nat, st: State, open: seq<TagEnd>, page: seq<Open>, end: TagEnd)
    requires Inv(shift, st, open, page) && open != [] && open[|open| - 1] == end
    requires end != BlockQuoteEnd && end != LinkEnd && end != ImageEnd
    requires end == TableHeadEnd ==> TableCellEnd !in open
    ensures page != [] && Inv(shift, Ended(shift, st, end), open[..|open| - 1], page[..|page| - 1])
  {
    var written := if end == HtmlBlockEnd then ParagraphEnd
        else if end.HeadingEnd? then HeadingEnd(Shift(shift, end.level)) else end;
    var outer := open[..|open| - 1];
    if end == TableHeadEnd {
      assert forall e :: e in outer ==> e in open;
      RelatesAnyHead(shift, outer, st.quotes, st.links, page[..|page| - 1], st.table.inHead, false);
    }
    WriteEnd(shift, st, open, page, End(written), Ended(shift, st, end));
  }

  lemma {:induction false} EndKeeps(shift: nat, st: State, open: seq<TagEnd>, page: seq<Open>, end: TagEnd,
        rest: seq<Event>) returns (after: After)
    requires Inv(shift, st, open, page) && WellNested(open, [End(end)] + rest)
    ensures StepKeeps(shift, st, End(end), rest, after)
  {
    assert ([End(end)] + rest)[1..] == rest;
    var outer := open[..|open| - 1];
    if end == ImageEnd {
      after := After(outer, page);
    } else if end == LinkEnd {
      var left := EndLinkKeeps(shift, st, open, page);
      after := After(outer, left);
    } else if end == BlockQuoteEnd {
      EndQuoteKeeps(shift, st, open, page);
      after := After(outer, page[..|page| - 1]);
    } else {
      EndOtherKeeps(shift, st, open, page, end);
      after := After(outer, page[..|page| - 1]);
    }
  }

  lemma OtherKeeps(shift: nat, st: State, open: seq<TagEnd>, page: seq<Open>, event: Event, rest: seq<Event>)
    requires Inv(shift, st, open, page) && WellNested(open, [event] + rest) && !event.Start? && !event.End?
    ensures StepKeeps(shift, st, event, rest, After(open, page))
  {
    assert ([event] + rest)[1..] == rest;
  }

  lemma {:induction false} RewriteNests(shift: nat, st: State, open: seq<TagEnd>, page: seq<Open>, input: seq<Event>)
    requires Inv(shift, st, open, page) && WellNested(open, input)
    ensures var output := NestAll(Rewritten(shift, st, input).output); output.Some? && output.value.open == []
    decreases |input|
  {
    if input != [] {
      var event, rest := input[0], input[1..];
      assert input == [event] + rest;
      var after;
      if event.Start? {
        after := StartKeeps(shift, st, open, page, event.tag, rest);
      } else if event.End? {
        after := EndKeeps(shift, st, open, page, event.end, rest);
      } else {
        after := After(open, page);
        OtherKeeps(shift, st, open, page, event, rest);
      }
      var (next, left) := Step(shift, st, event, rest);
      RewriteNests(shift, next, after.open, after.page, left);
    }
  }

  /** Well-nested events are rewritten into well-nested HTML, all of it closed. */
  lemma {:induction false} OutputIsWellNested(shift: nat, input: seq<Event>)
    requires WellNested([], input)
    ensures var output := NestAll(Rewritten(shift, Initial, input).output); output.Some? && output.value.open == []
  {
    RewriteNests(shift, Initial, [], [], input);
  }

  // The inline form.

  /** Of what is open on the page, the inline elements. */
  function InlineOpen(open: seq<Open>): seq<Open> {
    if open == [] then []
    else
      var last := open[|open| - 1];
      InlineOpen(open[..|open| - 1]) + if last.Element? && IsInline(last.end) then [last] else []
  }

  ghost predicate OnlyInline(events: seq<Event>) {
    forall event :: event in events ==>
      && (event.Start? ==> IsInline(ToEnd(event.tag))) && (event.End? ==> IsInline(event.end))
      && (event.Start? || event.End? || event.Text? || event.Code?)
  }

  function InlineOf1(open: Open): seq<Open> {
    if open.Element? && IsInline(open.end) then [open] else []
  }

  lemma InlineOpenMore(open: seq<Open>, last: Open)
    ensures InlineOpen(open + [last]) == InlineOpen(open) + InlineOf1(last)
  {
    assert (open + [last])[..|open|] == open;
  }

  lemma NestInlineStart(page: Page, tag: Tag)
    ensures var next := Nest(page, Start(tag)).value;
      InlineOpen(next.open) == InlineOpen(page.open) + if IsInline(ToEnd(tag)) then [Element(ToEnd(tag))] else []
  {
    InlineOpenMore(page.open, Element(ToEnd(tag)));
  }

  lemma NestInlineEnd(page: Page, end: TagEnd)
    requires Nest(page, End(end)).Some?
    ensures var next := Nest(page, End(end)).value;
      InlineOpen(page.open) == InlineOpen(next.open) + if IsInline(end) then [Element(end)] else []
  {
    var n := |page.open| - 1;
    assert page.open == page.open[..n] + [page.open[n]];
    InlineOpenMore(page.open[..n], page.open[n]);
  }

  lemma NestInlineHtml(page: Page, html: string)
    requires Nest(page, Html(html)).Some?
    ensures InlineOpen(Nest(page, Html(html)).value.open) == InlineOpen(page.open)
  {
    InlineOpenMore(page.open, Division);
    InlineOpenMore(page.open, Cell(true));
    InlineOpenMore(page.open, Cell(false));
    if FormOf(html) == CloseDivision {
      var n := |page.open| - 1;
      assert page.open == page.open[..n] + [page.open[n]];
      InlineOpenMore(page.open[..n], page.open[n]);
    }
  }

  /** An event and what the inline form keeps of it open and close the same inline elements. */
  lemma {:induction false} NestInline(page: Page, event: Event)
    requires Nest(page, event).Some?
    ensures var inline, after := InlineOf(event), InlineOpen(Nest(page, event).value.open);
      if inline == [] then after == InlineOpen(page.open)
      else |inline| == 1 && Nest(Page(InlineOpen(page.open), false), inline[0]) == Some(Page(after, false))
  {
    hide InlineOpen;
    if event.Start? {
      NestInlineStart(page, event.tag);
    } else if event.End? {
      NestInlineEnd(page, event.end);
      var open, after := InlineOpen(page.open), InlineOpen(Nest(page, event).value.open);
      if IsInline(event.end) {
        assert open[..|open| - 1] == after && open[|open| - 1] == Element(event.end);
      }
    } else if event.Html? {
      NestInlineHtml(page, event.html);
    }
  }

  lemma InlineIsInline(event: Event)
    ensures OnlyInline(InlineOf(event))
  {
  }

  lemma {:induction false} InlineNests(events: seq<Event>)
    requires NestAll(events).Some?
    ensures NestAll(Inline(events)) == Some(Page(InlineOpen(NestAll(events).value.open), false))
    ensures OnlyInline(Inline(events))
    decreases |events|
  {
    if events != [] {
      var before, event := events[..|events| - 1], events[|events| - 1];
      InlineNests(before);
      NestInline(NestAll(before).value, event);
      InlineIsInline(event);
      var inline := InlineOf(event);
      if inline == [] {
        assert Inline(before) + [] == Inline(before);
      } else {
        assert inline == [inline[0]];
      }
    }
  }

  /** The inline form of well-nested Markdown is well nested, with inline tags and text only. */
  lemma {:induction false} InlineFormIsWellNested(shift: nat, input: seq<Event>)
    requires WellNested([], input)
    ensures var inline := Inline(Rewritten(shift, Initial, input).output);
      OnlyInline(inline) && NestAll(inline).Some? && NestAll(inline).value.open == []
  {
    OutputIsWellNested(shift, input);
    InlineNests(Rewritten(shift, Initial, input).output);
  }

  // Safety, of any events.

  /** HTML the rewrite writes: a callout's title or end, a cell's start, or a status. */
  ghost predicate IsForm(html: string) {
    || html == CLOSE_CALLOUT
    || (exists mark :: mark in CALLOUTS && html == CalloutHtml(mark))
    || (exists mark :: mark in STATUSES && html == StatusHtml(mark))
    || (exists head, alignment, status ::
          (status == None || status.value in STATUSES) && html == CellHtml(head, alignment, status))
  }

  /** No HTML but the forms, no link but web and mail links, no image, and no heading above `shift`. */
  ghost predicate Safe(shift: nat, event: Event) {
    match event
    case Html(html) => IsForm(html)
    case InlineHtml(_) => false
    case Start(tag) =>
      && tag != HtmlBlock && tag != TableCell && !tag.Image?
      && (tag.Link? ==> tag.email || IsWebLink(tag.url))
      && (tag.Heading? ==> tag.level == 6 || tag.level > shift)
    case End(end) => end != HtmlBlockEnd && end != ImageEnd
    case _ => true
  }

  ghost predicate AllSafe(shift: nat, events: seq<Event>) {
    forall event :: event in events ==> Safe(shift, event)
  }

  lemma PushIsSafe(shift: nat, st: State, event: Event)
    requires AllSafe(shift, st.output) && Safe(shift, event)
    ensures AllSafe(shift, Push(st, [event]).output)
  {
  }

  lemma CellIsSafe(shift: nat, st: State, rest: seq<Event>)
    requires AllSafe(shift, st.output)
    ensures AllSafe(shift, Celled(st, rest).0.output)
  {
    hide CellHtml, StatusHtml, Strip;
    var status := Marked(STATUSES, rest, 0);
    var alignment := if st.table.column < |st.table.alignments| then st.table.alignments[st.table.column]
        else NoAlignment;
    var mark := if status.Some? then Some(status.value.0) else None;
    var cell := Html(CellHtml(st.table.inHead, alignment, mark));
    assert IsForm(cell.html);
    PushIsSafe(shift, st, cell);
    if status.Some? {
      var span := Html(StatusHtml(status.value.0));
      assert IsForm(span.html);
      var marked := Push(Push(st, [cell]), [span]);
      PushIsSafe(shift, Push(st, [cell]), span);
      PushIsSafe(shift, marked, Text(" " + status.value.1));
      PushIsSafe(shift, marked, Text(" "));
    }
  }

  lemma CalloutIsSafe(shift: nat, st: State, text: string, rest: seq<Event>)
    requires AllSafe(shift, st.output)
    ensures AllSafe(shift, CalloutBegun(st, text, rest).0.output)
  {
    PushIsSafe(shift, st, Start(Paragraph));
    PushIsSafe(shift, Push(st, [Start(Paragraph)]), Text(text));
    assert st.output + [Start(Paragraph)] + [Text(text)] == st.output + [Start(Paragraph), Text(text)];
  }

  lemma QuoteIsSafe(shift: nat, st: State, rest: seq<Event>)
    requires AllSafe(shift, st.output)
    ensures AllSafe(shift, Quoted(st, rest).0.output)
  {
    var callout := if rest != [] && rest[0] == Start(Paragraph) then Marked(CALLOUTS, rest, 1) else None;
    var begun := st.(quotes := st.quotes + [callout.Some?]);
    if callout == None {
      PushIsSafe(shift, begun, Start(BlockQuote));
    } else {
      var title := Html(CalloutHtml(callout.value.0));
      assert IsForm(title.html);
      PushIsSafe(shift, begun, title);
      CalloutIsSafe(shift, Push(begun, [title]), callout.value.1, rest[2..]);
    }
  }

  lemma {:induction false} StepIsSafe(shift: nat, st: State, event: Event, rest: seq<Event>)
    requires AllSafe(shift, st.output)
    ensures AllSafe(shift, Step(shift, st, event, rest).0.output)
  {
    hide Quoted, Celled;
    if event == Start(BlockQuote) {
      QuoteIsSafe(shift, st, rest);
    } else if event == Start(TableCell) {
      CellIsSafe(shift, st, rest);
    }
  }

  lemma {:induction false} RewriteIsSafe(shift: nat, st: State, input: seq<Event>)
    requires AllSafe(shift, st.output)
    ensures AllSafe(shift, Rewritten(shift, st, input).output)
    decreases |input|
  {
    if input != [] {
      StepIsSafe(shift, st, input[0], input[1..]);
      var (next, rest) := Step(shift, st, input[0], input[1..]);
      RewriteIsSafe(shift, next, rest);
    }
  }

  /** Whatever the parser's events, the output is safe. */
  lemma {:induction false} OutputIsSafe(shift: nat, input: seq<Event>)
    ensures AllSafe(shift, Rewritten(shift, Initial, input).output)
  {
    RewriteIsSafe(shift, Initial, input);
  }
}
