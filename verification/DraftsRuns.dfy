/**
 The drafts of a reviewer over whole runs: no identity is used twice or comes back, and no text is
 lost.
 */
module DraftsRuns {
  import opened Wrappers
  import opened Text
  import opened Drafts

  /** What happens to the drafts. `Elsewhere` are identities drawn by anyone else. */
  datatype Step =
    | StartThread(unit: Review, path: string)
    | Reply(unit: Review, thread: nat, onCode: bool, replyTo: nat)
    | Edit(id: nat, text: string)
    | Park(id: nat)
    | SubmitText(id: nat)
    | CancelDraft(id: nat)
    | Acknowledge(unit: Review, message: nat)
    | Fail(unit: Review, message: nat)
    | RecoverFrom(unit: Review, saved: seq<Draft>)
    | ReconcileWith(book: ReviewThreads)
    | Elsewhere(drawn: nat)

  /** Every identity that is seen was drawn before. */
  ghost predicate Enabled(st: State, step: Step) {
    match step
    case Reply(_, thread, _, _) => thread < st.drawn
    case RecoverFrom(_, saved) => forall draft :: draft in saved ==> draft.message < st.drawn && draft.thread < st.drawn
    case ReconcileWith(book) => forall message :: message in book.messages ==> message < st.drawn
    case Elsewhere(drawn) => st.drawn <= drawn
    case _ => true
  }

  function Next(st: State, step: Step): State {
    match step
    case StartThread(unit, path) =>
      Push(st, Open(unit, Draft(File(path), None, "", st.drawn, st.drawn + 1), "", false)).(drawn := st.drawn + 2)
    case Reply(unit, thread, onCode, replyTo) => StartReply(st, unit, thread, onCode, replyTo)
    case Edit(id, text) => Edited(st, id, text).0
    case Park(id) => Parked(st, id)
    case SubmitText(id) => Submit(st, id).0
    case CancelDraft(id) => Cancel(st, id).0
    case Acknowledge(unit, message) => PostSucceeded(st, unit, message)
    case Fail(unit, message) => PostFailed(st, unit, message)
    case RecoverFrom(unit, saved) => Recover(st, unit, saved)
    case ReconcileWith(book) => Reconcile(st, book).0
    case Elsewhere(drawn) => st.(drawn := drawn)
  }

  // The invariant.

  /** The identities of `slot` were drawn, and what it posts is the text of its editor. */
  ghost predicate GoodSlot(slot: Slot, drawn: nat) {
    && MessageOf(slot) < drawn
    && (slot.Open? ==> slot.draft.thread < drawn && (slot.posting ==> slot.draft.text == slot.text))
  }

  /** Two slots do not share an identity, nor two open drafts a thread, of one review. */
  ghost predicate Apart(a: Slot, b: Slot) {
    a.unit == b.unit ==>
      && MessageOf(a) != MessageOf(b)
      && (a.Open? && b.Open? ==> a.draft.thread != b.draft.thread)
  }

  ghost predicate Good(st: State) {
    && (forall id: nat :: id in st.slots <==> id < st.next)
    && (forall id :: id in st.slots ==> GoodSlot(st.slots[id], st.drawn))
    && (forall i, j :: i in st.slots && j in st.slots && i != j ==> Apart(st.slots[i], st.slots[j]))
  }

  /** What no step undoes: slots stay, and a closed one stays as it is. */
  ghost predicate Extends(st: State, next: State) {
    && st.next <= next.next && st.drawn <= next.drawn
    && (forall id :: id in st.slots ==> id in next.slots && next.slots[id].unit == st.slots[id].unit)
    && (forall id :: id in st.slots && st.slots[id].Closed? ==> next.slots[id] == st.slots[id])
  }

  /** A slot kept under its identity. */
  lemma UpdateKeeps(st: State, id: nat, slot: Slot)
    requires Good(st) && IsOpen(st, id) && slot.unit == st.slots[id].unit
    requires MessageOf(slot) == st.slots[id].draft.message && GoodSlot(slot, st.drawn)
    requires slot.Open? ==> slot.draft.thread == st.slots[id].draft.thread
    ensures var next := st.(slots := st.slots[id := slot]); Good(next) && Extends(st, next)
  {
    forall k | k in st.slots && k != id
      ensures Apart(st.slots[k], slot)
    {
      assert Apart(st.slots[k], st.slots[id]);
    }
  }

  lemma {:induction false} SettleKeeps(st: State, id: nat, published: string)
    requires Good(st)
    ensures Good(Settle(st, id, published).0) && Extends(st, Settle(st, id, published).0)
  {
    if IsOpen(st, id) {
      var slot := st.slots[id];
      var retired := Closed(slot.unit, slot.draft.message, Posted);
      if slot.text == published {
        UpdateKeeps(st, id, retired);
      } else {
        var renewed := slot.(draft := Renewed(slot, st.drawn), posting := false);
        var drawn := Settle(st, id, published).0.drawn;
        forall k | k in st.slots && k != id
          ensures Apart(st.slots[k], renewed) && Apart(st.slots[k], retired)
        {
          assert Apart(st.slots[k], slot) && GoodSlot(st.slots[k], st.drawn);
        }
        var replaced := st.(slots := st.slots[id := renewed], drawn := drawn);
        assert Settle(st, id, published).0 == Push(replaced, retired);
      }
    }
  }

  lemma RecoverOneKeeps(st: State, unit: Review, draft: Draft)
    requires Good(st) && draft.message < st.drawn && draft.thread < st.drawn
    ensures Good(RecoverOne(st, unit, draft)) && Extends(st, RecoverOne(st, unit, draft))
  {
    if !IsKnown(st, unit, draft) && !IsBlankText(draft.text) {
      var slot := Open(unit, draft, Clean(draft.text), false);
      forall id | id in st.slots
        ensures Apart(st.slots[id], slot)
      {
        assert !Identifies(st.slots[id], unit, draft.message);
        assert !IsOpenOn(st.slots[id], unit, draft.thread);
      }
    }
  }

  lemma {:induction false} RecoverKeeps(st: State, unit: Review, saved: seq<Draft>)
    requires Good(st) && Enabled(st, RecoverFrom(unit, saved))
    ensures Good(Recover(st, unit, saved)) && Extends(st, Recover(st, unit, saved))
    ensures Recover(st, unit, saved).drawn == st.drawn
    decreases |saved|
  {
    if saved != [] {
      var before, draft := saved[..|saved| - 1], saved[|saved| - 1];
      assert forall d :: d in before ==> d in saved;
      RecoverKeeps(st, unit, before);
      RecoverOneKeeps(Recover(st, unit, before), unit, draft);
    }
  }

  lemma {:induction false} SettleAllKeeps(st: State, published: seq<(nat, string)>)
    requires Good(st)
    ensures Good(SettleAll(st, published).0) && Extends(st, SettleAll(st, published).0)
    decreases |published|
  {
    if published != [] {
      SettleAllKeeps(st, published[..|published| - 1]);
      var (id, text) := published[|published| - 1];
      SettleKeeps(SettleAll(st, published[..|published| - 1]).0, id, text);
    }
  }

  /** Steps that change one slot at most. */
  lemma {:induction false} OneSlotKeeps(st: State, step: Step)
    requires Good(st) && Enabled(st, step)
    requires step.Edit? || step.Park? || step.SubmitText? || step.CancelDraft?
    ensures Good(Next(st, step)) && Extends(st, Next(st, step))
  {
    var id := step.id;
    if IsOpen(st, id) && !st.slots[id].posting {
      var slot := st.slots[id];
      assert GoodSlot(slot, st.drawn);
      UpdateKeeps(st, id, Closed(slot.unit, slot.draft.message, Dropped));
      UpdateKeeps(st, id, slot.(draft := slot.draft.(text := slot.text), posting := true));
      if step.Edit? {
        UpdateKeeps(st, id, slot.(text := step.text, draft := slot.draft.(text := step.text)));
      }
    }
  }

  lemma StartThreadKeeps(st: State, unit: Review, path: string)
    requires Good(st)
    ensures Good(Next(st, StartThread(unit, path))) && Extends(st, Next(st, StartThread(unit, path)))
  {
  }

  lemma ReplyKeeps(st: State, unit: Review, thread: nat, onCode: bool, replyTo: nat)
    requires Good(st) && thread < st.drawn
    ensures var next := StartReply(st, unit, thread, onCode, replyTo); Good(next) && Extends(st, next)
  {
  }

  lemma AnswersKeep(st: State, step: Step)
    requires Good(st) && (step.Acknowledge? || step.Fail?)
    ensures Good(Next(st, step)) && Extends(st, Next(st, step))
  {
    var id := PostingOf(st, step.unit, step.message);
    if id.Some? {
      if step.Acknowledge? {
        SettleKeeps(st, id.value, st.slots[id.value].draft.text);
      } else {
        assert GoodSlot(st.slots[id.value], st.drawn);
        UpdateKeeps(st, id.value, st.slots[id.value].(posting := false));
      }
    }
  }

  lemma {:induction false} StepKeeps(st: State, step: Step)
    requires Good(st) && Enabled(st, step)
    ensures Good(Next(st, step)) && Extends(st, Next(st, step))
  {
    match step
    case StartThread(unit, path) => StartThreadKeeps(st, unit, path);
    case Reply(unit, thread, onCode, replyTo) => ReplyKeeps(st, unit, thread, onCode, replyTo);
    case Acknowledge(_, _) => AnswersKeep(st, step);
    case Fail(_, _) => AnswersKeep(st, step);
    case RecoverFrom(unit, saved) => RecoverKeeps(st, unit, saved);
    case ReconcileWith(book) => SettleAllKeeps(st, Published(st, book, 0));
    case Elsewhere(_) =>
    case _ => OneSlotKeeps(st, step);
  }

  // Whole runs.

  function After(st: State, steps: seq<Step>): State {
    if steps == [] then st else Next(After(st, steps[..|steps| - 1]), steps[|steps| - 1])
  }

  ghost predicate Run(st: State, steps: seq<Step>) {
    steps == [] ||
    (Run(st, steps[..|steps| - 1]) && Enabled(After(st, steps[..|steps| - 1]), steps[|steps| - 1]))
  }

  const Initial := State(0, map[], 0)

  lemma {:induction false} RunsKeep(st: State, steps: seq<Step>)
    requires Good(st) && Run(st, steps)
    ensures Good(After(st, steps)) && Extends(st, After(st, steps))
  {
    if steps != [] {
      var before := steps[..|steps| - 1];
      RunsKeep(st, before);
      StepKeeps(After(st, before), steps[|steps| - 1]);
    }
  }

  /** Every run of a reviewer's drafts, from none. */
  lemma {:induction false} EveryRunIsGood(steps: seq<Step>)
    requires Run(Initial, steps)
    ensures Good(After(Initial, steps))
  {
    RunsKeep(Initial, steps);
  }

  /** Whether an open draft of the review has the identity. */
  ghost predicate Composed(st: State, unit: Review, message: nat) {
    exists id :: IsOpen(st, id) && Identifies(st.slots[id], unit, message)
  }

  /** A closed identity stays closed, with its ending, and no later run composes it again. */
  lemma {:induction false} ClosedStaysClosed(st: State, id: nat, steps: seq<Step>)
    requires Good(st) && Run(st, steps) && id in st.slots && st.slots[id].Closed?
    ensures id in After(st, steps).slots && After(st, steps).slots[id] == st.slots[id]
    ensures !Composed(After(st, steps), st.slots[id].unit, st.slots[id].message)
  {
    RunsKeep(st, steps);
    var after := After(st, steps);
    forall k | IsOpen(after, k)
      ensures !Identifies(after.slots[k], st.slots[id].unit, st.slots[id].message)
    {
      assert Apart(after.slots[k], after.slots[id]);
    }
  }

  // Recovery.

  lemma Known(st: State, unit: Review, draft: Draft, id: nat)
    requires Good(st) && id in st.slots
    requires Identifies(st.slots[id], unit, draft.message) || IsOpenOn(st.slots[id], unit, draft.thread)
    ensures IsKnown(st, unit, draft)
  {
  }

  /** Whether `draft` would be left alone by a recovery. */
  ghost predicate NothingToRecover(st: State, unit: Review, draft: Draft) {
    IsBlankText(draft.text) || IsKnown(st, unit, draft)
  }

  lemma RecoverOneSettles(st: State, unit: Review, draft: Draft, other: Draft)
    requires Good(st) && draft.message < st.drawn && draft.thread < st.drawn
    ensures NothingToRecover(RecoverOne(st, unit, draft), unit, draft)
    ensures NothingToRecover(st, unit, other) ==> NothingToRecover(RecoverOne(st, unit, draft), unit, other)
  {
    RecoverOneKeeps(st, unit, draft);
    var next := RecoverOne(st, unit, draft);
    if next != st {
      Known(next, unit, draft, st.next);
      if IsKnown(st, unit, other) {
        var identified := FindFrom(st, slot => Identifies(slot, unit, other.message), 0);
        var composed := ForThread(st, unit, other.thread);
        Known(next, unit, other, if identified.Some? then identified.value else composed.value);
      }
    }
  }

  /** After a recovery every saved draft that has text is held, or its identity or thread is taken. */
  lemma {:induction false} RecoverIsComplete(st: State, unit: Review, saved: seq<Draft>)
    requires Good(st) && Enabled(st, RecoverFrom(unit, saved))
    ensures forall draft :: draft in saved ==> NothingToRecover(Recover(st, unit, saved), unit, draft)
    decreases |saved|
  {
    if saved != [] {
      var before, last := saved[..|saved| - 1], saved[|saved| - 1];
      assert saved == before + [last];
      RecoverIsComplete(st, unit, before);
      RecoverKeeps(st, unit, before);
      forall draft | draft in saved
        ensures NothingToRecover(Recover(st, unit, saved), unit, draft)
      {
        RecoverOneSettles(Recover(st, unit, before), unit, last, draft);
      }
    }
  }

  lemma {:induction false} RecoverNothing(st: State, unit: Review, saved: seq<Draft>)
    requires forall draft :: draft in saved ==> NothingToRecover(st, unit, draft)
    ensures Recover(st, unit, saved) == st
    decreases |saved|
  {
    if saved != [] {
      assert saved[|saved| - 1] in saved;
      assert forall draft :: draft in saved[..|saved| - 1] ==> draft in saved;
      RecoverNothing(st, unit, saved[..|saved| - 1]);
    }
  }

  /** Recovering a second time from the same saved drafts changes nothing. */
  lemma {:induction false} RecoverTwice(st: State, unit: Review, saved: seq<Draft>)
    requires Good(st) && Enabled(st, RecoverFrom(unit, saved))
    ensures Recover(Recover(st, unit, saved), unit, saved) == Recover(st, unit, saved)
  {
    RecoverIsComplete(st, unit, saved);
    RecoverNothing(Recover(st, unit, saved), unit, saved);
  }

  // Reconciliation.

  /** Whether the draft is one of the review whose message `book` holds. */
  ghost predicate InBook(st: State, book: ReviewThreads, id: nat) {
    IsOpen(st, id) && st.slots[id].unit == book.unit && st.slots[id].draft.message in book.messages
  }

  ghost predicate Lists(published: seq<(nat, string)>, id: nat) {
    exists k :: 0 <= k < |published| && published[k].0 == id
  }

  ghost predicate Increasing(published: seq<(nat, string)>) {
    forall k, l :: 0 <= k < l < |published| ==> published[k].0 < published[l].0
  }

  lemma {:induction false} PublishedAre(st: State, book: ReviewThreads, from: nat)
    ensures var published := Published(st, book, from);
      && Increasing(published)
      && (forall k :: 0 <= k < |published| ==>
            && from <= published[k].0 && InBook(st, book, published[k].0)
            && published[k].1 == book.messages[st.slots[published[k].0].draft.message])
      && (forall id :: from <= id < st.next && InBook(st, book, id) ==> Lists(published, id))
    decreases st.next - from
  {
    if from < st.next {
      PublishedAre(st, book, from + 1);
      var more, published := Published(st, book, from + 1), Published(st, book, from);
      var shift := |published| - |more|;
      forall id | from <= id < st.next && InBook(st, book, id)
        ensures Lists(published, id)
      {
        if id == from {
          assert published[0].0 == id;
        } else {
          assert Lists(more, id);
          var k :| 0 <= k < |more| && more[k].0 == id;
          assert published[k + shift].0 == id;
        }
      }
    }
  }

  /** What a draft becomes when its publication carries `text`: posted, or renewed with its text. */
  ghost predicate SettledAs(before: Slot, text: string, after: Slot, drawn: nat) {
    before.Open? &&
    if before.text == text then after == Closed(before.unit, before.draft.message, Posted)
    else
      && after.Open? && after.unit == before.unit && after.text == before.text && !after.posting
      && after.draft.text == before.text && after.draft.target == before.draft.target
      && after.draft.replyTo == before.draft.replyTo && drawn <= after.draft.message
      && (if before.draft.target.File? then drawn <= after.draft.thread else after.draft.thread == before.draft.thread)
  }

  /** One save of each draft of `published` that is still open, oldest first. */
  ghost function Saves(st: State, published: seq<(nat, string)>): seq<Command> {
    if published == [] then []
    else
      var before, id := Saves(st, published[..|published| - 1]), published[|published| - 1].0;
      if IsOpen(st, id) then before + [SaveDraft(st.slots[id].unit, st.slots[id].draft)] else before
  }

  lemma {:induction false} SavesOfSame(a: State, b: State, published: seq<(nat, string)>)
    requires forall k :: 0 <= k < |published| ==>
                published[k].0 in a.slots && published[k].0 in b.slots
                && a.slots[published[k].0] == b.slots[published[k].0]
    ensures Saves(a, published) == Saves(b, published)
    decreases |published|
  {
    if published != [] {
      SavesOfSame(a, b, published[..|published| - 1]);
    }
  }

  lemma SettleDoes(st: State, id: nat, text: string)
    requires Good(st) && IsOpen(st, id)
    ensures var (next, command) := Settle(st, id, text);
      && id in next.slots && SettledAs(st.slots[id], text, next.slots[id], st.drawn)
      && (forall k :: k in st.slots && k != id ==> k in next.slots && next.slots[k] == st.slots[k])
      && (forall k :: k in next.slots && k !in st.slots ==> next.slots[k].Closed?)
      && command == if IsOpen(next, id) then Some(SaveDraft(next.slots[id].unit, next.slots[id].draft)) else None
  {
  }

  lemma ListsBefore(published: seq<(nat, string)>, id: nat)
    requires published != []
    ensures Lists(published, id) <==> (Lists(published[..|published| - 1], id) || published[|published| - 1].0 == id)
  {
    var before := published[..|published| - 1];
    if Lists(published, id) && published[|published| - 1].0 != id {
      var k :| 0 <= k < |published| && published[k].0 == id;
      assert before[k].0 == id;
    }
    if Lists(before, id) {
      var k :| 0 <= k < |before| && before[k].0 == id;
      assert published[k].0 == id;
    }
  }

  lemma {:induction false} SettleAllLeaves(st: State, published: seq<(nat, string)>, id: nat)
    requires Good(st) && !Lists(published, id)
    ensures var next := SettleAll(st, published).0;
      if id in st.slots then id in next.slots && next.slots[id] == st.slots[id]
      else id in next.slots ==> next.slots[id].Closed?
    decreases |published|
  {
    if published != [] {
      var before := published[..|published| - 1];
      var (last, text) := published[|published| - 1];
      ListsBefore(published, id);
      SettleAllLeaves(st, before, id);
      SettleAllKeeps(st, before);
      var mid := SettleAll(st, before).0;
      if IsOpen(mid, last) {
        SettleDoes(mid, last, text);
      }
    }
  }

  lemma {:induction false} SettleAllSettles(st: State, published: seq<(nat, string)>, k: nat)
    requires Good(st) && Increasing(published) && k < |published| && IsOpen(st, published[k].0)
    ensures var (id, text), next := published[k], SettleAll(st, published).0;
      id in next.slots && SettledAs(st.slots[id], text, next.slots[id], st.drawn)
    decreases |published|
  {
    var before := published[..|published| - 1];
    var (last, text) := published[|published| - 1];
    var mid := SettleAll(st, before).0;
    SettleAllKeeps(st, before);
    if k == |published| - 1 {
      assert !Lists(before, last);
      SettleAllLeaves(st, before, last);
      SettleDoes(mid, last, text);
    } else {
      assert before[k] == published[k];
      SettleAllSettles(st, before, k);
      if IsOpen(mid, last) {
        SettleDoes(mid, last, text);
      }
    }
  }

  lemma {:induction false} SettleAllSaves(st: State, published: seq<(nat, string)>)
    requires Good(st) && Increasing(published)
    requires forall k :: 0 <= k < |published| ==> IsOpen(st, published[k].0)
    ensures var (next, commands) := SettleAll(st, published); commands == Saves(next, published)
    decreases |published|
  {
    if published != [] {
      var before := published[..|published| - 1];
      var (last, text) := published[|published| - 1];
      SettleAllSaves(st, before);
      SettleAllKeeps(st, before);
      var mid := SettleAll(st, before).0;
      assert !Lists(before, last);
      SettleAllLeaves(st, before, last);
      SettleDoes(mid, last, text);
      SavesOfSame(mid, Settle(mid, last, text).0, before);
    }
  }

  /** What a reconciliation does to the slot `id`. */
  ghost predicate ReconciledAs(st: State, book: ReviewThreads, next: State, id: nat) {
    if InBook(st, book, id) then
      id in next.slots &&
      SettledAs(st.slots[id], book.messages[st.slots[id].draft.message], next.slots[id], st.drawn)
    else if id in st.slots then id in next.slots && next.slots[id] == st.slots[id]
    else id in next.slots ==> next.slots[id].Closed?
  }

  lemma {:induction false} ReconcileDoes(st: State, book: ReviewThreads, id: nat)
    requires Good(st)
    ensures ReconciledAs(st, book, Reconcile(st, book).0, id)
  {
    var published := Published(st, book, 0);
    PublishedAre(st, book, 0);
    if InBook(st, book, id) {
      assert Lists(published, id);
      var k :| 0 <= k < |published| && published[k].0 == id;
      SettleAllSettles(st, published, k);
    } else {
      assert !Lists(published, id);
      SettleAllLeaves(st, published, id);
    }
  }

  /**
   A reconciliation settles every draft whose message the book holds: afterwards no open draft of the
   review has such a message, and each renewed draft is saved exactly once.
   */
  lemma {:induction false} ReconcileSettles(st: State, book: ReviewThreads)
    requires Good(st) && Enabled(st, ReconcileWith(book))
    ensures var (next, commands) := Reconcile(st, book);
      && (forall id: nat :: !InBook(next, book, id))
      && (forall id: nat :: ReconciledAs(st, book, next, id))
      && commands == Saves(next, Published(st, book, 0))
  {
    var next := Reconcile(st, book).0;
    forall id: nat
      ensures ReconciledAs(st, book, next, id) && !InBook(next, book, id)
    {
      ReconcileDoes(st, book, id);
    }
    PublishedAre(st, book, 0);
    SettleAllSaves(st, Published(st, book, 0));
  }

  // No text is lost.

  /** The text that `step` tells was published for the draft `id`. */
  ghost function PublishedText(st: State, step: Step, id: nat): Option<string>
    requires IsOpen(st, id)
  {
    if step.Acknowledge? && PostingOf(st, step.unit, step.message) == Some(id) then Some(st.slots[id].draft.text)
    else if step.ReconcileWith? && InBook(st, step.book, id) then Some(step.book.messages[st.slots[id].draft.message])
    else None
  }

  /**
   A draft whose editor is not blank keeps its text, open or under a renewed identity, unless the
   reviewer edits or cancels it or its exact text was published.
   */
  lemma {:induction false} NoTextIsLost(st: State, step: Step, id: nat)
    requires Good(st) && Enabled(st, step) && IsOpen(st, id) && !IsBlankText(st.slots[id].text)
    ensures id in Next(st, step).slots
    ensures var before, after := st.slots[id], Next(st, step).slots[id];
      if step == CancelDraft(id) && !before.posting then after == Closed(before.unit, before.draft.message, Dropped)
      else if PublishedText(st, step, id) == Some(before.text) then
        after == Closed(before.unit, before.draft.message, Posted)
      else
        && after.Open? && after.unit == before.unit && after.draft.target == before.draft.target
        && after.text == if step.Edit? && step.id == id && !before.posting then step.text else before.text
  {
    match step
    case Acknowledge(unit, message) =>
      var found := PostingOf(st, unit, message);
      if found.Some? {
        AcknowledgedIsPosted(st, unit, message, found.value);
      }
    case RecoverFrom(unit, saved) => RecoverLeaves(st, unit, saved, id);
    case ReconcileWith(book) => ReconcileDoes(st, book, id);
    case _ =>
  }

  lemma {:induction false} RecoverLeaves(st: State, unit: Review, saved: seq<Draft>, id: nat)
    requires Good(st) && Enabled(st, RecoverFrom(unit, saved)) && id in st.slots
    ensures id in Recover(st, unit, saved).slots && Recover(st, unit, saved).slots[id] == st.slots[id]
    decreases |saved|
  {
    if saved != [] {
      assert forall draft :: draft in saved[..|saved| - 1] ==> draft in saved;
      RecoverLeaves(st, unit, saved[..|saved| - 1], id);
      RecoverKeeps(st, unit, saved[..|saved| - 1]);
    }
  }

  /** The acknowledgement of a post closes its draft as posted, whatever happened since. */
  lemma {:induction false} AcknowledgedIsPosted(st: State, unit: Review, message: nat, id: nat)
    requires Good(st) && id in st.slots && IsPosting(st.slots[id], unit, message)
    ensures PostSucceeded(st, unit, message) == Close(st, id, Posted)
  {
    var found := PostingOf(st, unit, message);
    assert found.Some?;
    if found.value != id {
      assert Apart(st.slots[found.value], st.slots[id]);
    }
    assert GoodSlot(st.slots[id], st.drawn);
  }

  // Texts an editor does not keep.

  lemma {:induction false} CleanHasNoReturn(text: string)
    ensures '\r' !in Clean(text)
    ensures forall c :: c in Clean(text) ==> !IsControl(c) || c == '\n' || c == '\t'
    decreases |text|
  {
    if text != "" {
      CleanHasNoReturn(if "\r\n" <= text then text[2..] else text[1..]);
    }
  }

  lemma {:induction false} CleanKeeps(text: string)
    requires '\r' !in text
    requires forall i :: 0 <= i < |text| ==> !IsControl(text[i]) || text[i] == '\n' || text[i] == '\t'
    ensures Clean(text) == text
    decreases |text|
  {
    if text != "" {
      assert text[0] in text;
      CleanKeeps(text[1..]);
      assert [text[0]] + text[1..] == text;
    }
  }

  /** An editor keeps a text piece by piece, unless it is split inside a line break. */
  lemma {:induction false} CleanOfBoth(a: string, b: string)
    requires a == "" || b == "" || a[|a| - 1] != '\r' || b[0] != '\n'
    ensures Clean(a + b) == Clean(a) + Clean(b)
    decreases |a|
  {
    if a == "" {
      assert a + b == b;
    } else {
      var n := if "\r\n" <= a then 2 else 1;
      assert (a + b)[n..] == a[n..] + b;
      assert "\r\n" <= a + b <==> "\r\n" <= a by {
        if |a| == 1 && b != "" {
          assert (a + b)[1] == b[0];
        }
      }
      CleanOfBoth(a[n..], b);
    }
  }

  /** A line break becomes `\n`, and of other characters all are kept but control characters that are not tabs. */
  lemma {:induction false} CleanOfOne(c: char)
    ensures Clean("\r\n") == "\n"
    ensures Clean([c]) == if c == '\n' || c == '\t' || !(c < ' ' || '\U{007F}' <= c <= '\U{009F}') then [c] else ""
  {
    assert "\r\n"[2..] == "" && [c][1..] == "";
  }

  /** An editor keeps the text of another editor as it is. */
  lemma {:induction false} CleanOfClean(text: string)
    ensures Clean(Clean(text)) == Clean(text)
  {
    CleanHasNoReturn(text);
    CleanKeeps(Clean(text));
  }

  /**
   A draft recovered, never edited, and then found published with its saved text is settled as posted
   if and only if its editor kept that text as it was.
   */
  lemma {:induction false} RecoveredIsSettled(st: State, draft: Draft, book: ReviewThreads)
    requires Good(st) && draft.message < st.drawn && draft.thread < st.drawn
    requires !NothingToRecover(st, book.unit, draft)
    requires draft.message in book.messages && book.messages[draft.message] == draft.text
    ensures var next := Reconcile(RecoverOne(st, book.unit, draft), book).0;
      st.next in next.slots && (next.slots[st.next].Closed? <==> Clean(draft.text) == draft.text)
  {
    RecoverOneKeeps(st, book.unit, draft);
    var recovered := RecoverOne(st, book.unit, draft);
    assert InBook(recovered, book, st.next);
    ReconcileDoes(recovered, book, st.next);
  }

  /** A saved text with a carriage return of its own comes back as a draft, though it was posted. */
  lemma {:induction false} ReturnComesBack(unit: Review)
    ensures var draft := Draft(Thread(1), None, "a\rb", 0, 1);
      var recovered := RecoverOne(Initial.(drawn := 2), unit, draft);
      var next := Reconcile(recovered, ReviewThreads(unit, map[0 := "a\rb"])).0;
      0 in next.slots && next.slots[0].Open? && next.slots[0].text == "ab"
  {
    var draft := Draft(Thread(1), None, "a\rb", 0, 1);
    var start := Initial.(drawn := 2);
    assert !IsKnown(start, unit, draft);
    assert !IsBlankText(draft.text) by {
      TrimIsEmpty(draft.text);
      assert !IsWhitespace(draft.text[0]);
    }
    ReconcileDoes(RecoverOne(start, unit, draft), ReviewThreads(unit, map[0 := "a\rb"]), 0);
  }
}
