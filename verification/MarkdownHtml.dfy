/**
 `crates/markdown-html/src/lib.rs`: the events of an agent's Markdown rewritten into those of the
 page's HTML.

 `Rewrite` is the source's object, proved against `Rewritten`. Of the Markdown parser's tags those the
 rewrite does not look at are `Plain`, told apart by a number.
 */
module MarkdownHtml {
  import opened Wrappers
  import opened Text

  type Level = level: nat | 1 <= level <= 6 witness 1

  datatype Alignment = NoAlignment | Left | Center | Right

  datatype Tag =
    | Paragraph
    | Heading(level: Level)
    | BlockQuote
    | HtmlBlock
    | Table(alignments: seq<Alignment>)
    | TableHead
    | TableRow
    | TableCell
    | Emphasis
    | Strong
    | Strikethrough
    | Link(email: bool, url: string)
    | Image(source: string)
    | Plain(name: nat)

  datatype TagEnd =
    | ParagraphEnd
    | HeadingEnd(level: Level)
    | BlockQuoteEnd
    | HtmlBlockEnd
    | TableEnd
    | TableHeadEnd
    | TableRowEnd
    | TableCellEnd
    | EmphasisEnd
    | StrongEnd
    | StrikethroughEnd
    | LinkEnd
    | ImageEnd
    | PlainEnd(name: nat)

  datatype Event =
    | Start(tag: Tag)
    | End(end: TagEnd)
    | Text(text: string)
    | Code(code: string)
    | Html(html: string)
    | InlineHtml(html: string)
    | SoftBreak
    | HardBreak
    | Rule
    | TaskListMarker(checked: bool)

  function ToEnd(tag: Tag): TagEnd {
    match tag
    case Paragraph => ParagraphEnd
    case Heading(level) => HeadingEnd(level)
    case BlockQuote => BlockQuoteEnd
    case HtmlBlock => HtmlBlockEnd
    case Table(_) => TableEnd
    case TableHead => TableHeadEnd
    case TableRow => TableRowEnd
    case TableCell => TableCellEnd
    case Emphasis => EmphasisEnd
    case Strong => StrongEnd
    case Strikethrough => StrikethroughEnd
    case Link(_, _) => LinkEnd
    case Image(_) => ImageEnd
    case Plain(name) => PlainEnd(name)
  }

  predicate IsInline(end: TagEnd) {
    end.EmphasisEnd? || end.StrongEnd? || end.StrikethroughEnd? || end.LinkEnd?
  }

  // Marks (`crates/markdown-marks/src/lib.rs`).

  datatype Mark = Mark(marker: string, title: string, name: string, symbol: string)

  const CALLOUTS: seq<Mark> := [
    Mark("[!CONCLUSION]", "Conclusion", "conclusion", ""),
    Mark("[!TIP]", "Tip", "tip", ""),
    Mark("[!WARNING]", "Warning", "warning", ""),
    Mark("[!ERROR]", "Error", "error", "")
  ]

  const STATUSES: seq<Mark> := [
    Mark("[!good]", "Good", "good", "\U{2713}"),
    Mark("[!bad]", "Bad", "bad", "\U{2717}"),
    Mark("[!warning]", "Warning", "warning", "!")
  ]

  function Lower(c: char): char {
    if 'A' <= c <= 'Z' then c - 'A' + 'a' else c
  }

  predicate EqualIgnoringCase(a: string, b: string) {
    |a| == |b| && forall i :: 0 <= i < |a| ==> Lower(a[i]) == Lower(b[i])
  }

  predicate Opens(text: string, prefix: string) {
    |prefix| <= |text| && EqualIgnoringCase(text[..|prefix|], prefix)
  }

  /** The first of `marks` whose marker opens `text`, and the text after the marker. */
  function Strip(marks: seq<Mark>, text: string): (r: Option<(Mark, string)>)
    ensures r.Some? ==> r.value.0 in marks
  {
    if marks == [] then None
    else
      var trimmed := TrimStart(text);
      if Opens(trimmed, marks[0].marker) then Some((marks[0], TrimStart(trimmed[|marks[0].marker|..])))
      else Strip(marks[1..], text)
  }

  predicate IsWebLink(url: string) {
    Opens(url, "http://") || Opens(url, "https://") || Opens(url, "mailto:")
  }

  // The fixed forms of HTML.

  function CalloutHtml(mark: Mark): string {
    "<div class=\"callout callout-" + mark.name + "\" role=\"note\" aria-label=\"" + mark.title + "\">\n"
    + "<p class=\"callout-title\">" + mark.title + "</p>\n"
  }

  const CLOSE_CALLOUT := "</div>\n"

  function AlignmentClass(alignment: Alignment): string {
    match alignment
    case NoAlignment => ""
    case Left => "align-left"
    case Center => "align-center"
    case Right => "align-right"
  }

  function CellHtml(head: bool, alignment: Alignment, status: Option<Mark>): string {
    var statusClass := if status.Some? then "status-" + status.value.name else "";
    var aligned := AlignmentClass(alignment);
    var classes := aligned + (if aligned != "" && statusClass != "" then " " else "") + statusClass;
    (if head then "<th" else "<td") + (if classes == "" then "" else " class=\"" + classes + "\"") + ">"
  }

  function StatusHtml(mark: Mark): string {
    "<span class=\"status\" role=\"img\" aria-label=\"" + mark.title + "\">" + mark.symbol + "</span>"
  }

  // What the rewrite computes.

  datatype TableState = TableState(alignments: seq<Alignment>, inHead: bool, column: nat)

  datatype State = State(output: seq<Event>, quotes: seq<bool>, links: seq<bool>, table: TableState)

  const Initial := State([], [], [], TableState([], false, 0))

  function Shift(shift: nat, level: Level): Level {
    if level + shift < 6 then level + shift else 6
  }

  function Push(st: State, events: seq<Event>): State {
    st.(output := st.output + events)
  }

  function TableStarted(table: TableState, tag: Tag): TableState {
    match tag
    case Table(alignments) => table.(alignments := alignments)
    case TableHead => table.(inHead := true, column := 0)
    case TableRow => table.(column := 0)
    case _ => table
  }

  /** The mark that opens the text event `at`, and the text after its marker. */
  function Marked(marks: seq<Mark>, rest: seq<Event>, at: nat): (r: Option<(Mark, string)>)
    ensures r.Some? ==> at < |rest| && rest[at].Text? && r.value.0 in marks
  {
    if at < |rest| && rest[at].Text? then Strip(marks, rest[at].text) else None
  }

  /** A callout whose marker was taken off the paragraph before `rest`, with `text` after it. */
  function CalloutBegun(st: State, text: string, rest: seq<Event>): (r: (State, seq<Event>))
    ensures |r.1| <= |rest|
  {
    if text != "" then (Push(st, [Start(Paragraph), Text(text)]), rest)
    else if rest != [] && (rest[0] == SoftBreak || rest[0] == HardBreak) then (Push(st, [Start(Paragraph)]), rest[1..])
    else if rest != [] && rest[0] == End(ParagraphEnd) then (st, rest[1..])
    else (Push(st, [Start(Paragraph)]), rest)
  }

  /** The quote that opens before `rest`, and what it leaves of it. */
  function Quoted(st: State, rest: seq<Event>): (r: (State, seq<Event>))
    ensures |r.1| <= |rest|
  {
    var callout := if rest != [] && rest[0] == Start(Paragraph) then Marked(CALLOUTS, rest, 1) else None;
    var begun := st.(quotes := st.quotes + [callout.Some?]);
    if callout == None then (Push(begun, [Start(BlockQuote)]), rest)
    else
      var (mark, text) := callout.value;
      CalloutBegun(Push(begun, [Html(CalloutHtml(mark))]), text, rest[2..])
  }

  /** The cell that opens before `rest`, and what it leaves of it. */
  function Celled(st: State, rest: seq<Event>): (r: (State, seq<Event>))
    ensures |r.1| <= |rest|
  {
    var status := Marked(STATUSES, rest, 0);
    var alignment := if st.table.column < |st.table.alignments| then st.table.alignments[st.table.column]
        else NoAlignment;
    var mark := if status.Some? then Some(status.value.0) else None;
    var begun := Push(st, [Html(CellHtml(st.table.inHead, alignment, mark))]);
    if status == None then (begun, rest)
    else
      var (mark, text) := status.value;
      var marked := Push(begun, [Html(StatusHtml(mark))]);
      var left := rest[1..];
      if text != "" then (Push(marked, [Text(" " + text)]), left)
      else if left != [] && left[0] == End(TableCellEnd) then (marked, left)
      else (Push(marked, [Text(" ")]), left)
  }

  function Started(shift: nat, st: State, tag: Tag, rest: seq<Event>): (r: (State, seq<Event>))
    ensures |r.1| <= |rest|
  {
    match tag
    case HtmlBlock => (Push(st, [Start(Paragraph)]), rest)
    case BlockQuote => Quoted(st, rest)
    case TableCell => Celled(st, rest)
    case Heading(level) => (Push(st, [Start(Heading(Shift(shift, level)))]), rest)
    case Link(email, url) =>
      var kept := email || IsWebLink(url);
      var linked := st.(links := st.links + [kept]);
      (if kept then Push(linked, [Start(tag)]) else linked, rest)
    case Image(_) => (st, rest)
    case _ => (Push(st.(table := TableStarted(st.table, tag)), [Start(tag)]), rest)
  }

  predicate LastIsTrue(flags: seq<bool>) {
    flags != [] && flags[|flags| - 1]
  }

  function Popped(flags: seq<bool>): seq<bool> {
    if flags == [] then flags else flags[..|flags| - 1]
  }

  function Ended(shift: nat, st: State, end: TagEnd): State {
    match end
    case HtmlBlockEnd => Push(st, [End(ParagraphEnd)])
    case BlockQuoteEnd =>
      Push(st.(quotes := Popped(st.quotes)), [if LastIsTrue(st.quotes) then Html(CLOSE_CALLOUT) else End(end)])
    case TableHeadEnd => Push(st.(table := st.table.(inHead := false)), [End(end)])
    case TableCellEnd => Push(st.(table := st.table.(column := st.table.column + 1)), [End(end)])
    case HeadingEnd(level) => Push(st, [End(HeadingEnd(Shift(shift, level)))])
    case LinkEnd =>
      var popped := st.(links := Popped(st.links));
      if LastIsTrue(st.links) then Push(popped, [End(end)]) else popped
    case ImageEnd => st
    case _ => Push(st, [End(end)])
  }

  function Step(shift: nat, st: State, event: Event, rest: seq<Event>): (r: (State, seq<Event>))
    ensures |r.1| <= |rest|
  {
    match event
    case Start(tag) => Started(shift, st, tag, rest)
    case End(end) => (Ended(shift, st, end), rest)
    case Html(html) => (Push(st, [Text(html)]), rest)
    case InlineHtml(html) => (Push(st, [Text(html)]), rest)
    case _ => (Push(st, [event]), rest)
  }

  function Rewritten(shift: nat, st: State, input: seq<Event>): State
    decreases |input|
  {
    if input == [] then st
    else
      var (next, rest) := Step(shift, st, input[0], input[1..]);
      Rewritten(shift, next, rest)
  }

  /** What the inline form keeps of an event. */
  function InlineOf(event: Event): seq<Event> {
    match event
    case Start(tag) => if IsInline(ToEnd(tag)) then [event] else []
    case End(end) => if IsInline(end) then [event] else []
    case SoftBreak => [Text(" ")]
    case HardBreak => [Text(" ")]
    case Html(_) => []
    case InlineHtml(_) => []
    case Rule => []
    case TaskListMarker(_) => []
    case _ => [event]
  }

  function Inline(events: seq<Event>): seq<Event> {
    if events == [] then [] else Inline(events[..|events| - 1]) + InlineOf(events[|events| - 1])
  }

  function Reversed(events: seq<Event>): (r: seq<Event>)
    ensures |r| == |events| && forall i :: 0 <= i < |r| ==> r[i] == events[|events| - 1 - i]
  {
    seq(|events|, i requires 0 <= i < |events| => events[|events| - 1 - i])
  }

  // The object.

  class Rewrite {
    const shift: nat
    /** The parser's events, in reverse, so the next one pops off the end. */
    var input: seq<Event>
    var output: seq<Event>
    var quotes: seq<bool>
    var links: seq<bool>
    var table: TableState

    constructor (shift: nat, events: seq<Event>)
      ensures this.shift == shift && Rest() == events && Now() == Initial
    {
      this.shift := shift;
      input := Reversed(events);
      output, quotes, links, table := [], [], [], TableState([], false, 0);
      new;
      assert Rest() == events;
    }

    ghost function Now(): State
      reads this
    {
      State(output, quotes, links, table)
    }

    /** The events left, the next one first. */
    ghost function Rest(): seq<Event>
      reads this
    {
      Reversed(input)
    }

    method Run()
      modifies this
      ensures Now() == Rewritten(shift, old(Now()), old(Rest())) && input == []
    {
      while input != []
        invariant Rewritten(shift, Now(), Rest()) == Rewritten(shift, old(Now()), old(Rest()))
        decreases |input|
      {
        var event := Pop();
        match event {
          case Start(tag) => StartTag(tag);
          case End(end) => EndTag(end);
          case Html(html) => output := output + [Text(html)];
          case InlineHtml(html) => output := output + [Text(html)];
          case _ => output := output + [event];
        }
      }
    }

    method Pop() returns (event: Event)
      requires input != []
      modifies this`input
      ensures event == old(Rest())[0] && Rest() == old(Rest())[1..]
    {
      event := input[|input| - 1];
      input := input[..|input| - 1];
      assert Rest() == old(Rest())[1..];
    }

    /** The event `ahead` events after the next one, without taking it. */
    method Peek(ahead: nat) returns (event: Option<Event>)
      ensures event == if ahead < |Rest()| then Some(Rest()[ahead]) else None
    {
      event := if ahead < |input| then Some(input[|input| - 1 - ahead]) else None;
    }

    method MarkAt(marks: seq<Mark>, ahead: nat) returns (marked: Option<(Mark, string)>)
      ensures marked == Marked(marks, Rest(), ahead)
    {
      var event := Peek(ahead);
      marked := if event.Some? && event.value.Text? then Strip(marks, event.value.text) else None;
    }

    method StartTag(tag: Tag)
      modifies this
      ensures (Now(), Rest()) == Started(shift, old(Now()), tag, old(Rest()))
    {
      match tag {
        case HtmlBlock => output := output + [Start(Paragraph)];
        case BlockQuote => Quote();
        case TableCell => Cell();
        case Heading(level) => output := output + [Start(Heading(Shift(shift, level)))];
        case Link(email, url) =>
          var kept := email || IsWebLink(url);
          links := links + [kept];
          if kept {
            output := output + [Start(tag)];
          }
        case Image(_) =>
        case _ =>
          table := TableStarted(table, tag);
          output := output + [Start(tag)];
      }
    }

    method EndTag(end: TagEnd)
      modifies this
      ensures Now() == Ended(shift, old(Now()), end) && Rest() == old(Rest())
    {
      match end {
        case HtmlBlockEnd => output := output + [End(ParagraphEnd)];
        case BlockQuoteEnd =>
          var callout := LastIsTrue(quotes);
          quotes := Popped(quotes);
          output := output + [if callout then Html(CLOSE_CALLOUT) else End(end)];
        case TableHeadEnd =>
          table := table.(inHead := false);
          output := output + [End(end)];
        case TableCellEnd =>
          table := table.(column := table.column + 1);
          output := output + [End(end)];
        case HeadingEnd(level) => output := output + [End(HeadingEnd(Shift(shift, level)))];
        case LinkEnd =>
          var kept := LastIsTrue(links);
          links := Popped(links);
          if kept {
            output := output + [End(end)];
          }
        case ImageEnd =>
        case _ => output := output + [End(end)];
      }
    }

    method Quote()
      modifies this
      ensures (Now(), Rest()) == Quoted(old(Now()), old(Rest()))
    {
      hide CalloutHtml, CalloutBegun, Strip;
      var paragraph := Peek(0);
      var callout: Option<(Mark, string)> := None;
      if paragraph == Some(Start(Paragraph)) {
        callout := MarkAt(CALLOUTS, 1);
      }
      quotes := quotes + [callout.Some?];
      if callout == None {
        output := output + [Start(BlockQuote)];
        return;
      }
      var (mark, text) := callout.value;
      output := output + [Html(CalloutHtml(mark))];
      var _ := Pop();
      var _ := Pop();
      assert Rest() == old(Rest())[2..];
      BeginCallout(text);
    }

    method BeginCallout(text: string)
      modifies this
      ensures (Now(), Rest()) == CalloutBegun(old(Now()), text, old(Rest()))
    {
      if text != "" {
        output := output + [Start(Paragraph), Text(text)];
        return;
      }
      var next := Peek(0);
      if next == Some(SoftBreak) || next == Some(HardBreak) {
        var _ := Pop();
        output := output + [Start(Paragraph)];
      } else if next == Some(End(ParagraphEnd)) {
        var _ := Pop();
      } else {
        output := output + [Start(Paragraph)];
      }
    }

    method Cell()
      modifies this
      ensures (Now(), Rest()) == Celled(old(Now()), old(Rest()))
    {
      var alignment := if table.column < |table.alignments| then table.alignments[table.column] else NoAlignment;
      var status := MarkAt(STATUSES, 0);
      output := output + [Html(CellHtml(table.inHead, alignment, if status.Some? then Some(status.value.0) else None))];
      if status == None {
        return;
      }
      var (mark, text) := status.value;
      var _ := Pop();
      output := output + [Html(StatusHtml(mark))];
      if text != "" {
        output := output + [Text(" " + text)];
      } else {
        var next := Peek(0);
        if next != Some(End(TableCellEnd)) {
          output := output + [Text(" ")];
        }
      }
    }
  }
}
