/**
 `crates/review-drafts/src/lib.rs`: the drafts a reviewer composes.

 `Drafts` is the source's object, each method proved against a function over `State`, its value.
 A comment editor is its text. Universally unique identities are numbers drawn from `Uuids`: those
 below `drawn` were drawn before, by this reviewer or another.
 */
module Drafts {
  import opened Wrappers
  import opened Text

  type Review = string

  datatype Target = File(path: string) | Thread(id: nat)

  /** A draft as it is saved: `message` and `thread` identify its publication. */
  datatype Draft = Draft(target: Target, replyTo: Option<nat>, text: string, message: nat, thread: nat)

  datatype Command =
    | SaveDraft(unit: Review, draft: Draft)
    | DiscardDraft(unit: Review, thread: nat)
    | Post(unit: Review, draft: Draft)

  datatype Submission = Posting(command: Command) | Cancelled(command: Command)

  datatype Ending = Posted | Dropped

  /** `text` is the text of the draft's editor. */
  datatype Slot =
    | Open(unit: Review, draft: Draft, text: string, posting: bool)
    | Closed(unit: Review, message: nat, ending: Ending)

  /** The messages of one review's threads. */
  datatype ReviewThreads = ReviewThreads(unit: Review, messages: map<nat, string>)

  datatype State = State(next: nat, slots: map<nat, Slot>, drawn: nat)

  function MessageOf(slot: Slot): nat {
    if slot.Open? then slot.draft.message else slot.message
  }

  predicate Identifies(slot: Slot, unit: Review, message: nat) {
    slot.unit == unit && MessageOf(slot) == message
  }

  predicate IsOpenOn(slot: Slot, unit: Review, thread: nat) {
    slot.Open? && slot.unit == unit && slot.draft.thread == thread
  }

  predicate IsPosting(slot: Slot, unit: Review, message: nat) {
    slot.Open? && slot.unit == unit && slot.posting && slot.draft.message == message
  }

  predicate IsBlankText(text: string) {
    Trim(text) == ""
  }

  /** What an editor keeps of a text: line breaks as `\n`, and no other control character but tabs. */
  function Clean(text: string): string
  {
    if text == "" then ""
    else if "\r\n" <= text then "\n" + Clean(text[2..])
    else (if IsControl(text[0]) && text[0] != '\n' && text[0] != '\t' then "" else [text[0]]) + Clean(text[1..])
  }

  // What the operations compute.

  function FindFrom(st: State, matches: Slot -> bool, id: nat): (r: Option<nat>)
    ensures r.Some? ==> id <= r.value < st.next && r.value in st.slots && matches(st.slots[r.value])
    ensures r == None ==> forall k :: id <= k < st.next && k in st.slots ==> !matches(st.slots[k])
    decreases st.next - id
  {
    if id >= st.next then None
    else if id in st.slots && matches(st.slots[id]) then Some(id)
    else FindFrom(st, matches, id + 1)
  }

  function ForThread(st: State, unit: Review, thread: nat): Option<nat> {
    FindFrom(st, slot => IsOpenOn(slot, unit, thread), 0)
  }

  function PostingOf(st: State, unit: Review, message: nat): Option<nat> {
    FindFrom(st, slot => IsPosting(slot, unit, message), 0)
  }

  predicate IsOpen(st: State, id: nat) {
    id in st.slots && st.slots[id].Open?
  }

  function Push(st: State, slot: Slot): State {
    st.(next := st.next + 1, slots := st.slots[st.next := slot])
  }

  function Close(st: State, id: nat, ending: Ending): State
    requires IsOpen(st, id)
  {
    st.(slots := st.slots[id := Closed(st.slots[id].unit, st.slots[id].draft.message, ending)])
  }

  function StartReply(st: State, unit: Review, thread: nat, onCode: bool, replyTo: nat): State {
    if ForThread(st, unit, thread).Some? || !onCode then st
    else
      var draft := Draft(Thread(thread), Some(replyTo), "", st.drawn, thread);
      Push(st, Open(unit, draft, "", false)).(drawn := st.drawn + 1)
  }

  function Edited(st: State, id: nat, text: string): (State, Option<Command>) {
    if !IsOpen(st, id) || st.slots[id].posting then (st, None)
    else
      var slot := st.slots[id];
      var saved := slot.draft.(text := text);
      (st.(slots := st.slots[id := slot.(text := text, draft := saved)]),
       if slot.draft.text == text then None else Some(SaveDraft(slot.unit, saved)))
  }

  function Parked(st: State, id: nat): State {
    if IsOpen(st, id) && !st.slots[id].posting && IsBlankText(st.slots[id].text) then Close(st, id, Dropped) else st
  }

  function Cancel(st: State, id: nat): (State, Option<Command>) {
    if !IsOpen(st, id) || st.slots[id].posting then (st, None)
    else (Close(st, id, Dropped), Some(DiscardDraft(st.slots[id].unit, st.slots[id].draft.thread)))
  }

  function Submit(st: State, id: nat): (State, Option<Submission>) {
    if !IsOpen(st, id) || st.slots[id].posting then (st, None)
    else if IsBlankText(st.slots[id].text) then
      var (next, command) := Cancel(st, id);
      (next, if command.Some? then Some(Cancelled(command.value)) else None)
    else
      var slot := st.slots[id];
      var posted := slot.draft.(text := slot.text);
      (st.(slots := st.slots[id := slot.(draft := posted, posting := true)]), Some(Posting(Post(slot.unit, posted))))
  }

  /** `draft` with the identity of a publication of its own, its text that of its editor. */
  function Renewed(slot: Slot, drawn: nat): Draft
    requires slot.Open?
  {
    slot.draft.(
      message := drawn,
      thread := if slot.draft.target.File? then drawn + 1 else slot.draft.thread,
      text := slot.text)
  }

  function Settle(st: State, id: nat, published: string): (State, Option<Command>) {
    if !IsOpen(st, id) then (st, None)
    else
      var slot := st.slots[id];
      if slot.text == published then (Close(st, id, Posted), None)
      else
        var retired := Push(st, Closed(slot.unit, slot.draft.message, Posted));
        var draft := Renewed(slot, st.drawn);
        (retired.(
           slots := retired.slots[id := slot.(draft := draft, posting := false)],
           drawn := st.drawn + if slot.draft.target.File? then 2 else 1),
         Some(SaveDraft(slot.unit, draft)))
  }

  function PostSucceeded(st: State, unit: Review, message: nat): State {
    var id := PostingOf(st, unit, message);
    if id == None then st else Settle(st, id.value, st.slots[id.value].draft.text).0
  }

  function PostFailed(st: State, unit: Review, message: nat): State {
    var id := PostingOf(st, unit, message);
    if id == None then st else st.(slots := st.slots[id.value := st.slots[id.value].(posting := false)])
  }

  predicate IsKnown(st: State, unit: Review, draft: Draft) {
    FindFrom(st, slot => Identifies(slot, unit, draft.message), 0).Some? || ForThread(st, unit, draft.thread).Some?
  }

  function RecoverOne(st: State, unit: Review, draft: Draft): State {
    if IsKnown(st, unit, draft) || IsBlankText(draft.text) then st
    else Push(st, Open(unit, draft, Clean(draft.text), false))
  }

  function Recover(st: State, unit: Review, saved: seq<Draft>): State {
    if saved == [] then st else RecoverOne(Recover(st, unit, saved[..|saved| - 1]), unit, saved[|saved| - 1])
  }

  /** The open drafts of the review whose message `book` holds, oldest first, with its text there. */
  function Published(st: State, book: ReviewThreads, id: nat): seq<(nat, string)>
    decreases st.next - id
  {
    if id >= st.next then []
    else
      (if IsOpen(st, id) && st.slots[id].unit == book.unit && st.slots[id].draft.message in book.messages
       then [(id, book.messages[st.slots[id].draft.message])] else [])
      + Published(st, book, id + 1)
  }

  function SettleAll(st: State, published: seq<(nat, string)>): (State, seq<Command>) {
    if published == [] then (st, [])
    else
      var (before, commands) := SettleAll(st, published[..|published| - 1]);
      var (id, text) := published[|published| - 1];
      var (next, command) := Settle(before, id, text);
      (next, if command.Some? then commands + [command.value] else commands)
  }

  function Reconcile(st: State, book: ReviewThreads): (State, seq<Command>) {
    SettleAll(st, Published(st, book, 0))
  }

  // The objects.

  /** Draws identities that no one drew before. */
  class Uuids {
    var drawn: nat

    constructor (drawn: nat)
      ensures this.drawn == drawn
    {
      this.drawn := drawn;
    }

    method Draw() returns (id: nat)
      modifies this
      ensures id == old(drawn) && drawn == id + 1
    {
      id := drawn;
      drawn := drawn + 1;
    }
  }

  class Drafts {
    const uuids: Uuids
    var next: nat
    var slots: map<nat, Slot>

    constructor (uuids: Uuids)
      ensures this.uuids == uuids && Now() == State(0, map[], uuids.drawn)
    {
      this.uuids, next, slots := uuids, 0, map[];
    }

    function Now(): State
      reads this, uuids
    {
      State(next, slots, uuids.drawn)
    }

    method Find(matches: Slot -> bool) returns (found: Option<nat>)
      ensures found == FindFrom(Now(), matches, 0)
    {
      for id := 0 to next
        invariant FindFrom(Now(), matches, 0) == FindFrom(Now(), matches, id)
      {
        if id in slots && matches(slots[id]) {
          return Some(id);
        }
      }
      return None;
    }

    method PushSlot(slot: Slot) returns (id: nat)
      modifies this
      ensures Now() == Push(old(Now()), slot) && id == old(next)
    {
      id := next;
      next := next + 1;
      slots := slots[id := slot];
    }

    /** Begins composing `draft` in an empty editor. */
    method Start(unit: Review, draft: Draft) returns (id: nat)
      modifies this
      ensures Now() == Push(old(Now()), Open(unit, draft, "", false)) && id == old(next)
    {
      id := PushSlot(Open(unit, draft, "", false));
    }

    /** Begins a reply to the thread, which is `onCode` or a round conversation. */
    method Reply(unit: Review, thread: nat, onCode: bool, replyTo: nat) returns (id: Option<nat>)
      modifies this, uuids
      ensures Now() == StartReply(old(Now()), unit, thread, onCode, replyTo)
      ensures id == if Now() == old(Now()) then None else Some(old(next))
    {
      var composed := Find(slot => IsOpenOn(slot, unit, thread));
      if composed.Some? || !onCode {
        return None;
      }
      var message := uuids.Draw();
      var started := Start(unit, Draft(Thread(thread), Some(replyTo), "", message, thread));
      return Some(started);
    }

    /** The editor of the draft holds `text` after a key or a paste. */
    method Edit(id: nat, text: string) returns (command: Option<Command>)
      modifies this
      ensures (Now(), command) == Edited(old(Now()), id, text)
    {
      if id !in slots || !slots[id].Open? || slots[id].posting {
        return None;
      }
      var slot := slots[id];
      slots := slots[id := slot.(text := text, draft := slot.draft.(text := text))];
      if slot.draft.text == text {
        assert slots[id].draft == slot.draft;
        return None;
      }
      return Some(SaveDraft(slot.unit, slots[id].draft));
    }

    method Park(id: nat)
      modifies this
      ensures Now() == Parked(old(Now()), id)
    {
      if id in slots && slots[id].Open? && !slots[id].posting && IsBlankText(slots[id].text) {
        CloseSlot(id, Dropped);
      }
    }

    method CloseSlot(id: nat, ending: Ending)
      requires IsOpen(Now(), id)
      modifies this
      ensures Now() == Close(old(Now()), id, ending)
    {
      slots := slots[id := Closed(slots[id].unit, slots[id].draft.message, ending)];
    }

    method CancelDraft(id: nat) returns (command: Option<Command>)
      modifies this
      ensures (Now(), command) == Cancel(old(Now()), id)
    {
      if id !in slots || !slots[id].Open? || slots[id].posting {
        return None;
      }
      command := Some(DiscardDraft(slots[id].unit, slots[id].draft.thread));
      CloseSlot(id, Dropped);
    }

    method SubmitDraft(id: nat) returns (submission: Option<Submission>)
      modifies this
      ensures (Now(), submission) == Submit(old(Now()), id)
    {
      if id !in slots || !slots[id].Open? || slots[id].posting {
        return None;
      }
      if IsBlankText(slots[id].text) {
        var command := CancelDraft(id);
        return if command.Some? then Some(Cancelled(command.value)) else None;
      }
      var posted := slots[id].draft.(text := slots[id].text);
      submission := Some(Posting(Post(slots[id].unit, posted)));
      slots := slots[id := slots[id].(draft := posted, posting := true)];
    }

    method AcknowledgePost(unit: Review, message: nat)
      modifies this, uuids
      ensures Now() == PostSucceeded(old(Now()), unit, message)
    {
      var id := Find(slot => IsPosting(slot, unit, message));
      if id.Some? {
        var _ := SettleDraft(id.value, slots[id.value].draft.text);
      }
    }

    method FailPost(unit: Review, message: nat)
      modifies this
      ensures Now() == PostFailed(old(Now()), unit, message)
    {
      var id := Find(slot => IsPosting(slot, unit, message));
      if id.Some? {
        slots := slots[id.value := slots[id.value].(posting := false)];
      }
    }

    method RecoverDrafts(unit: Review, saved: seq<Draft>)
      modifies this
      ensures Now() == Recover(old(Now()), unit, saved)
    {
      for index := 0 to |saved|
        invariant Now() == Recover(old(Now()), unit, saved[..index])
      {
        var draft := saved[index];
        assert saved[..index + 1][..index] == saved[..index];
        var identified := Find(slot => Identifies(slot, unit, draft.message));
        var composed := Find(slot => IsOpenOn(slot, unit, draft.thread));
        if identified == None && composed == None && !IsBlankText(draft.text) {
          var _ := PushSlot(Open(unit, draft, Clean(draft.text), false));
        }
      }
      assert saved[..|saved|] == saved;
    }

    method PublishedDrafts(book: ReviewThreads) returns (published: seq<(nat, string)>)
      ensures published == Published(Now(), book, 0)
    {
      published := [];
      for id := 0 to next
        invariant published + Published(Now(), book, id) == Published(Now(), book, 0)
      {
        if id in slots && slots[id].Open? && slots[id].unit == book.unit && slots[id].draft.message in book.messages {
          published := published + [(id, book.messages[slots[id].draft.message])];
        }
      }
    }

    method ReconcileDrafts(book: ReviewThreads) returns (commands: seq<Command>)
      modifies this, uuids
      ensures (Now(), commands) == Reconcile(old(Now()), book)
    {
      var published := PublishedDrafts(book);
      commands := [];
      for index := 0 to |published|
        invariant (Now(), commands) == SettleAll(old(Now()), published[..index])
      {
        assert published[..index + 1][..index] == published[..index];
        var command := SettleDraft(published[index].0, published[index].1);
        if command.Some? {
          commands := commands + [command.value];
        }
      }
      assert published[..|published|] == published;
    }

    /** Posted, or still a draft, under an identity of its own. */
    method SettleDraft(id: nat, published: string) returns (command: Option<Command>)
      modifies this, uuids
      ensures (Now(), command) == Settle(old(Now()), id, published)
    {
      if id !in slots || !slots[id].Open? {
        return None;
      }
      var slot := slots[id];
      if slot.text == published {
        CloseSlot(id, Posted);
        return None;
      }
      var _ := PushSlot(Closed(slot.unit, slot.draft.message, Posted));
      var message := uuids.Draw();
      var thread := slot.draft.thread;
      if slot.draft.target.File? {
        thread := uuids.Draw();
      }
      var draft := slot.draft.(message := message, thread := thread, text := slot.text);
      slots := slots[id := slot.(draft := draft, posting := false)];
      return Some(SaveDraft(slot.unit, draft));
    }
  }
}
