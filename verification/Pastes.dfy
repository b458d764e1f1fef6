/**
 `crates/claude-hooks/src/lib.rs`: the long pastes that Claude Code wraps in the prompt it reports.
 */
module Pastes {
  import opened Common
  import opened Text
  import opened Wrappers

  const PASTE_OPEN := "<pasted_content id=\""

  const ID_END := "\">"

  function PasteClose(id: string): string {
    "</pasted_content id=\"" + id + "\">"
  }

  function WithoutBreak(s: string): (r: string)
    ensures |r| <= |s|
  {
    if "\n" <= s then s[1..] else s
  }

  /** The text before the first paste of a prompt, the text pasted, and what follows the paste. */
  function FirstPaste(prompt: string): (r: Option<(string, string, string)>)
    ensures r.Some? ==> |r.value.2| < |prompt|
  {
    match SplitOnce(prompt, PASTE_OPEN)
    case None => None
    case Some((before, tag)) =>
      match SplitOnce(tag, ID_END)
      case None => None
      case Some((id, body)) =>
        match SplitOnce(body, PasteClose(id))
        case None => None
        case Some((pasted, after)) => Some((before, WithoutBreak(pasted), WithoutBreak(after)))
  }

  /** A prompt with each paste as it was pasted. */
  function Unwrapped(prompt: string): string
    decreases |prompt|
  {
    match FirstPaste(prompt)
    case None => prompt
    case Some((before, pasted, after)) => before + pasted + Unwrapped(after)
  }

  method UnwrapPastes(prompt: string) returns (text: string)
    ensures text == Unwrapped(prompt)
  {
    text := "";
    var rest := prompt;
    while true
      invariant text + Unwrapped(rest) == Unwrapped(prompt)
      decreases |rest|
    {
      var open := Find(rest, PASTE_OPEN);
      if open == None {
        break;
      }
      var tag := SplitOnce(rest[open.value + |PASTE_OPEN|..], ID_END);
      if tag == None {
        break;
      }
      var (id, body) := tag.value;
      var paste := SplitOnce(body, PasteClose(id));
      if paste == None {
        break;
      }
      var (pasted, after) := paste.value;
      assert FirstPaste(rest) == Some((rest[..open.value], WithoutBreak(pasted), WithoutBreak(after)));
      Associate(text, rest[..open.value], WithoutBreak(pasted));
      Associate(text, rest[..open.value] + WithoutBreak(pasted), Unwrapped(WithoutBreak(after)));
      text := text + rest[..open.value] + WithoutBreak(pasted);
      rest := WithoutBreak(after);
    }
    text := text + rest;
  }

  // The round trip.

  /** A prompt: plain text, and any number of pastes, each with plain text before it. */
  datatype Prompt = Plain(plain: string) | Pasted(plain: string, id: string, text: string, next: Prompt)

  /** What the prompt says. */
  function Said(prompt: Prompt): string {
    match prompt
    case Plain(plain) => plain
    case Pasted(plain, _, text, next) => plain + text + Said(next)
  }

  /** The prompt as Claude Code reports it. */
  function Reported(prompt: Prompt): string {
    match prompt
    case Plain(plain) => plain
    case Pasted(plain, id, text, next) =>
      plain + PASTE_OPEN + (id + ID_END + ("\n" + text + PasteClose(id) + ("\n" + Reported(next))))
  }

  /** Plain text that opens no paste, and pastes with a number that do not hold their own end. */
  ghost predicate IsUnambiguous(prompt: Prompt) {
    && !Holds(prompt.plain, PASTE_OPEN)
    && (prompt.Pasted? ==>
          && (forall i :: 0 <= i < |prompt.id| ==> IsDigit(prompt.id[i]))
          && !Holds(prompt.text, PasteClose(prompt.id))
          && IsUnambiguous(prompt.next))
  }

  lemma CloseStartsOnce(id: string)
    requires forall i :: 0 <= i < |id| ==> IsDigit(id[i])
    ensures StartsOnce(PasteClose(id))
  {
    var close := PasteClose(id);
    forall i | 1 <= i < |close|
      ensures close[i] != '<'
    {
      assert close == "</pasted_content id=\"" + id + "\">";
    }
  }

  lemma BreakHoldsNoClose(text: string, id: string)
    requires !Holds(text, PasteClose(id))
    ensures !Holds("\n" + text, PasteClose(id))
  {
    forall i: nat
      ensures !OccursAt("\n" + text, PasteClose(id), i)
    {
      var close := PasteClose(id);
      if i == 0 {
        assert close[0] == '<' && ("\n" + text)[0] == '\n';
        assert |close| <= |text| + 1 ==> ("\n" + text)[..|close|][0] == '\n';
      } else {
        assert !OccursAt(text, close, i - 1);
        assert i + |close| <= |text| + 1 ==> text[i - 1..i - 1 + |close|] == ("\n" + text)[i..i + |close|];
      }
    }
  }

  lemma FirstPasteOf(plain: string, id: string, text: string, rest: string)
    requires !Holds(plain, PASTE_OPEN) && !Holds(text, PasteClose(id))
    requires forall i :: 0 <= i < |id| ==> IsDigit(id[i])
    ensures FirstPaste(plain + PASTE_OPEN + (id + ID_END + ("\n" + text + PasteClose(id) + ("\n" + rest))))
         == Some((plain, text, rest))
  {
    hide Holds, StartsOnce, PasteClose, SplitOnce;
    var body := "\n" + text + PasteClose(id) + ("\n" + rest);
    SplitOnceOf(plain, PASTE_OPEN, id + ID_END + body);
    assert '"' !in id;
    HoldsNothing(id, ID_END);
    SplitOnceOf(id, ID_END, body);
    CloseStartsOnce(id);
    BreakHoldsNoClose(text, id);
    SplitOnceOf("\n" + text, PasteClose(id), "\n" + rest);
  }

  /** Every prompt reported with its pastes wrapped is unwrapped to what it says. */
  lemma {:induction false} UnwrappedIsSaid(prompt: Prompt)
    requires IsUnambiguous(prompt)
    ensures Unwrapped(Reported(prompt)) == Said(prompt)
    decreases prompt
  {
    match prompt
    case Plain(plain) =>
    case Pasted(plain, id, text, next) =>
      FirstPasteOf(plain, id, text, Reported(next));
      UnwrappedIsSaid(next);
  }

  /** A paste without its end: its number is not ended, or the end of that paste does not follow. */
  ghost predicate IsUnfinished(tag: string) {
    || !Holds(tag, ID_END)
    || exists id, text :: IsUnclosed(tag, id, text)
  }

  ghost predicate IsUnclosed(tag: string, id: string, text: string) {
    tag == id + ID_END + text && (forall i :: 0 <= i < |id| ==> IsDigit(id[i])) && !Holds(text, PasteClose(id))
  }

  /** A prompt that opens a paste without its end is left as it is. */
  lemma {:induction false} UnfinishedIsKept(plain: string, tag: string)
    requires !Holds(plain, PASTE_OPEN) && IsUnfinished(tag)
    ensures Unwrapped(plain + PASTE_OPEN + tag) == plain + PASTE_OPEN + tag
  {
    hide Holds, StartsOnce, PasteClose, SplitOnce;
    PasteOpenStartsOnce();
    SplitOnceOf(plain, PASTE_OPEN, tag);
    if Holds(tag, ID_END) {
      var id, text :| IsUnclosed(tag, id, text);
      assert '"' !in id;
      HoldsNothing(id, ID_END);
      SplitOnceOf(id, ID_END, text);
    }
  }

  lemma PasteOpenStartsOnce()
    ensures StartsOnce(PASTE_OPEN) && StartsOnce(ID_END)
  {
  }
}
