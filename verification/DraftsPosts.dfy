/**
 The commands the drafts give over whole runs: what is posted is the text of the editor, and what an
 acknowledgement closes is what was posted last (`crates/review-drafts/src/lib.rs`).
 */
module DraftsPosts {
  import opened Wrappers
  import opened Drafts
  import opened DraftsRuns

  function OneOf(command: Option<Command>): seq<Command> {
    if command.Some? then [command.value] else []
  }

  /** The commands that a step gives. */
  function Given(st: State, step: Step): seq<Command> {
    match step
    case Edit(id, text) => OneOf(Edited(st, id, text).1)
    case CancelDraft(id) => OneOf(Cancel(st, id).1)
    case SubmitText(id) =>
      var submission := Submit(st, id).1;
      if submission.Some? then [submission.value.command] else []
    case ReconcileWith(book) => Reconcile(st, book).1
    case _ => []
  }

  /** Whether the draft may change: it is open, and not being posted. */
  ghost predicate IsEditable(st: State, id: nat) {
    id in st.slots && st.slots[id].Open? && !st.slots[id].posting
  }

  /** Whether the step posts `draft`: it submits the draft of an editor that is not blank, with its text. */
  ghost predicate Posts(st: State, step: Step, unit: Review, draft: Draft) {
    && step.SubmitText? && IsEditable(st, step.id)
    && var slot := st.slots[step.id];
       && !IsBlankText(slot.text) && unit == slot.unit
       && draft == Draft(slot.draft.target, slot.draft.replyTo, slot.text, slot.draft.message, slot.draft.thread)
  }

  /** Whether the step discards the saved draft of `thread`: it cancels the draft, or submits it blank. */
  ghost predicate Discards(st: State, step: Step, unit: Review, thread: nat) {
    && (step.CancelDraft? || step.SubmitText?) && IsEditable(st, step.id)
    && var slot := st.slots[step.id];
       unit == slot.unit && thread == slot.draft.thread && (step.SubmitText? ==> IsBlankText(slot.text))
  }

  /** Whether the step saves `draft`: with the text an edit changed it to, or under the identity it is renewed with. */
  ghost predicate SavesDraft(st: State, step: Step, unit: Review, draft: Draft) {
    || (&& step.Edit? && IsEditable(st, step.id)
        && var slot := st.slots[step.id];
           && unit == slot.unit && slot.draft.text != step.text
           && draft == Draft(slot.draft.target, slot.draft.replyTo, step.text, slot.draft.message, slot.draft.thread))
    || (step.ReconcileWith? && exists id: nat ::
          IsRenewed(st, step, id, unit, draft))
  }

  ghost predicate IsRenewed(st: State, step: Step, id: nat, unit: Review, draft: Draft)
    requires step.ReconcileWith?
  {
    && InBook(st, step.book, id) && st.slots[id].unit == unit
    && step.book.messages[st.slots[id].draft.message] != st.slots[id].text
    && id in Next(st, step).slots && Next(st, step).slots[id].Open? && Next(st, step).slots[id].draft == draft
  }

  ghost predicate SavesSlot(st: State, id: nat, command: Command) {
    IsOpen(st, id) && command == SaveDraft(st.slots[id].unit, st.slots[id].draft)
  }

  lemma {:induction false} SavesAre(st: State, published: seq<(nat, string)>, command: Command)
    ensures command in Saves(st, published) <==>
            exists id: nat :: Lists(published, id) && SavesSlot(st, id, command)
    decreases |published|
  {
    if published != [] {
      var before, last := published[..|published| - 1], published[|published| - 1].0;
      SavesAre(st, before, command);
      forall id: nat
        ensures Lists(published, id) <==> Lists(before, id) || last == id
      {
        ListsBefore(published, id);
      }
      assert Lists(published, last);
      assert command in Saves(st, published) <==> command in Saves(st, before) || SavesSlot(st, last, command);
    }
  }

  lemma ReconcileGives(st: State, step: Step, command: Command)
    requires Good(st) && Enabled(st, step) && step.ReconcileWith?
    ensures command in Given(st, step) <==> command.SaveDraft? && SavesDraft(st, step, command.unit, command.draft)
  {
    var book := step.book;
    var next, published := Reconcile(st, book).0, Published(st, book, 0);
    ReconcileSettles(st, book);
    PublishedAre(st, book, 0);
    SavesAre(next, published, command);
    forall id: nat
      ensures Lists(published, id) <==> InBook(st, book, id)
      ensures command.SaveDraft? ==>
                (Lists(published, id) && SavesSlot(next, id, command) <==>
                 IsRenewed(st, step, id, command.unit, command.draft))
    {
      ReconcileDoes(st, book, id);
    }
  }

  /** Every command of a step, and the step that gives it. */
  lemma {:induction false} CommandsAre(st: State, step: Step, command: Command)
    requires Good(st) && Enabled(st, step)
    ensures command in Given(st, step) <==>
            match command
            case Post(unit, draft) => Posts(st, step, unit, draft)
            case DiscardDraft(unit, thread) => Discards(st, step, unit, thread)
            case SaveDraft(unit, draft) => SavesDraft(st, step, unit, draft)
    ensures !step.ReconcileWith? ==> |Given(st, step)| <= 1
  {
    if step.ReconcileWith? {
      ReconcileGives(st, step, command);
    }
  }

  /** What a step makes of a slot; what no case names, it leaves as it is. */
  ghost predicate Becomes(st: State, step: Step, id: nat, after: Slot)
    requires id in st.slots
  {
    var slot := st.slots[id];
    var editable := IsEditable(st, id);
    if step.Edit? && step.id == id && editable then
      && after.Open? && after.unit == slot.unit && after.text == step.text && !after.posting
      && SavedAs(slot.draft, step.text, after.draft)
    else if step.SubmitText? && step.id == id && editable && !IsBlankText(slot.text) then
      && after.Open? && after.unit == slot.unit && after.text == slot.text && after.posting
      && SavedAs(slot.draft, slot.text, after.draft)
    else if step == CancelDraft(id) && editable then after == Closed(slot.unit, slot.draft.message, Dropped)
    else if (step == Park(id) || step == SubmitText(id)) && editable && IsBlankText(slot.text) then
      after == Closed(slot.unit, slot.draft.message, Dropped)
    else if step.Acknowledge? && IsPosting(slot, step.unit, step.message) then
      after == Closed(step.unit, step.message, Posted)
    else if step.Fail? && IsPosting(slot, step.unit, step.message) then
      after == Open(slot.unit, slot.draft, slot.text, false)
    else if step.ReconcileWith? && InBook(st, step.book, id) then
      SettledAs(slot, step.book.messages[slot.draft.message], after, st.drawn)
    else after == slot
  }

  /** `after` is `before` but for its text. */
  ghost predicate SavedAs(before: Draft, text: string, after: Draft) {
    after == Draft(before.target, before.replyTo, text, before.message, before.thread)
  }

  lemma FailedIs(st: State, unit: Review, message: nat, id: nat)
    requires Good(st) && id in st.slots
    ensures PostFailed(st, unit, message).slots.Keys == st.slots.Keys
    ensures Becomes(st, Fail(unit, message), id, PostFailed(st, unit, message).slots[id])
  {
    var found := PostingOf(st, unit, message);
    if IsPosting(st.slots[id], unit, message) {
      assert found.Some? && (found.value == id || Apart(st.slots[found.value], st.slots[id]));
    }
  }

  lemma AcknowledgedIs(st: State, unit: Review, message: nat, id: nat)
    requires Good(st) && id in st.slots
    ensures id in PostSucceeded(st, unit, message).slots
    ensures Becomes(st, Acknowledge(unit, message), id, PostSucceeded(st, unit, message).slots[id])
  {
    var found := PostingOf(st, unit, message);
    if found.Some? {
      AcknowledgedIsPosted(st, unit, message, found.value);
      if found.value != id {
        assert Apart(st.slots[found.value], st.slots[id]);
      }
    }
  }

  /** What every step makes of every slot. */
  lemma {:induction false} SlotsBecome(st: State, step: Step, id: nat)
    requires Good(st) && Enabled(st, step) && id in st.slots
    ensures id in Next(st, step).slots && Becomes(st, step, id, Next(st, step).slots[id])
  {
    match step
    case Acknowledge(unit, message) => AcknowledgedIs(st, unit, message, id);
    case Fail(unit, message) => FailedIs(st, unit, message, id);
    case RecoverFrom(unit, saved) => RecoverLeaves(st, unit, saved, id);
    case ReconcileWith(book) => ReconcileDoes(st, book, id);
    case _ =>
  }

  /** What a new slot holds: a draft begun or recovered, or an identity that was posted. */
  ghost predicate Begins(st: State, step: Step, slot: Slot) {
    match step
    case StartThread(unit, path) => slot == Open(unit, Draft(File(path), None, "", st.drawn, st.drawn + 1), "", false)
    case Reply(unit, thread, onCode, replyTo) =>
      && onCode && (forall id :: id in st.slots ==> !IsOpenOn(st.slots[id], unit, thread))
      && slot == Open(unit, Draft(Thread(thread), Some(replyTo), "", st.drawn, thread), "", false)
    case RecoverFrom(unit, saved) =>
      exists draft :: draft in saved && !NothingToRecover(st, unit, draft)
                      && slot == Open(unit, draft, Clean(draft.text), false)
    case ReconcileWith(book) => slot.Closed?
    case _ => false
  }

  lemma {:induction false} RecoverBegins(st: State, unit: Review, saved: seq<Draft>, id: nat)
    requires Good(st) && Enabled(st, RecoverFrom(unit, saved))
    requires id !in st.slots && id in Recover(st, unit, saved).slots
    ensures Begins(st, RecoverFrom(unit, saved), Recover(st, unit, saved).slots[id])
    decreases |saved|
  {
    if saved != [] {
      hide Good, NothingToRecover;
      var before, last := saved[..|saved| - 1], saved[|saved| - 1];
      assert saved == before + [last];
      var mid := Recover(st, unit, before);
      RecoverKeeps(st, unit, before);
      RecoverOneBegins(mid, unit, last, id);
      if id in mid.slots {
        RecoverBegins(st, unit, before, id);
      } else {
        StillNothing(st, unit, before, last);
      }
    }
  }

  lemma RecoverOneBegins(st: State, unit: Review, draft: Draft, id: nat)
    requires Good(st) && id in RecoverOne(st, unit, draft).slots
    ensures var slot := RecoverOne(st, unit, draft).slots[id];
      if id in st.slots then slot == st.slots[id]
      else !NothingToRecover(st, unit, draft) && slot == Open(unit, draft, Clean(draft.text), false)
  {
  }

  /** What needs no recovery needs none after one. */
  lemma {:induction false} StillNothing(st: State, unit: Review, saved: seq<Draft>, other: Draft)
    requires Good(st) && Enabled(st, RecoverFrom(unit, saved))
    ensures NothingToRecover(st, unit, other) ==> NothingToRecover(Recover(st, unit, saved), unit, other)
    decreases |saved|
  {
    if saved != [] {
      hide Good, NothingToRecover;
      var before, last := saved[..|saved| - 1], saved[|saved| - 1];
      assert saved == before + [last];
      StillNothing(st, unit, before, other);
      RecoverKeeps(st, unit, before);
      RecoverOneSettles(Recover(st, unit, before), unit, last, other);
    }
  }

  lemma AcknowledgeAddsNone(st: State, unit: Review, message: nat)
    requires Good(st)
    ensures PostSucceeded(st, unit, message).slots.Keys == st.slots.Keys
  {
    var found := PostingOf(st, unit, message);
    if found.Some? {
      AcknowledgedIsPosted(st, unit, message, found.value);
    }
  }

  /** What every step puts into a new slot. */
  lemma {:induction false} NewSlotsAre(st: State, step: Step, id: nat)
    requires Good(st) && Enabled(st, step) && id !in st.slots && id in Next(st, step).slots
    ensures Begins(st, step, Next(st, step).slots[id])
  {
    match step
    case Acknowledge(unit, message) => AcknowledgeAddsNone(st, unit, message);
    case RecoverFrom(unit, saved) => RecoverBegins(st, unit, saved, id);
    case ReconcileWith(book) => ReconcileDoes(st, book, id);
    case _ =>
  }

  // Posts over runs.

  /** The last draft posted for a message. */
  function LastPost(commands: seq<Command>, unit: Review, message: nat): Option<Draft> {
    if commands == [] then None
    else
      var last := commands[|commands| - 1];
      if last.Post? && last.unit == unit && last.draft.message == message then Some(last.draft)
      else LastPost(commands[..|commands| - 1], unit, message)
  }

  /** The commands of a run, in turn. */
  function AllGiven(st: State, steps: seq<Step>): seq<Command> {
    if steps == [] then []
    else
      var before := steps[..|steps| - 1];
      AllGiven(st, before) + Given(After(st, before), steps[|steps| - 1])
  }

  lemma {:induction false} LastPostOfBoth(a: seq<Command>, b: seq<Command>, unit: Review, message: nat)
    ensures LastPost(a + b, unit, message) ==
            if LastPost(b, unit, message) == None then LastPost(a, unit, message) else LastPost(b, unit, message)
    decreases |b|
  {
    if b == [] {
      assert a + b == a;
    } else {
      assert (a + b)[..|a + b| - 1] == a + b[..|b| - 1];
      LastPostOfBoth(a, b[..|b| - 1], unit, message);
    }
  }

  lemma {:induction false} LastPostIs(commands: seq<Command>, unit: Review, message: nat)
    ensures match LastPost(commands, unit, message)
            case Some(draft) => draft.message == message && Post(unit, draft) in commands
            case None => forall draft: Draft :: draft.message == message ==> Post(unit, draft) !in commands
  {
    if commands != [] {
      LastPostIs(commands[..|commands| - 1], unit, message);
      assert commands == commands[..|commands| - 1] + [commands[|commands| - 1]];
    }
  }

  lemma {:induction false} RecoverPostsNone(st: State, unit: Review, saved: seq<Draft>, id: nat)
    requires id !in st.slots && id in Recover(st, unit, saved).slots
    ensures Recover(st, unit, saved).slots[id].Open? ==> !Recover(st, unit, saved).slots[id].posting
    decreases |saved|
  {
    if saved != [] && id in Recover(st, unit, saved[..|saved| - 1]).slots {
      RecoverPostsNone(st, unit, saved[..|saved| - 1], id);
    }
  }

  ghost predicate IsPostingDraft(st: State, id: nat) {
    id in st.slots && st.slots[id].Open? && st.slots[id].posting
  }

  /** A draft being posted was being posted before with what it is, or the step posted it. */
  lemma {:induction false} PostingBegins(st: State, step: Step, id: nat)
    requires Good(st) && Enabled(st, step) && IsPostingDraft(Next(st, step), id)
    ensures var slot := Next(st, step).slots[id];
      if step == SubmitText(id) && !IsPostingDraft(st, id) then Posts(st, step, slot.unit, slot.draft)
      else id in st.slots && st.slots[id] == slot
  {
    match step
    case Acknowledge(unit, message) =>
      var found := PostingOf(st, unit, message);
      if found.Some? {
        AcknowledgedIsPosted(st, unit, message, found.value);
      }
    case RecoverFrom(unit, saved) =>
      if id in st.slots {
        RecoverLeaves(st, unit, saved, id);
      } else {
        RecoverPostsNone(st, unit, saved, id);
      }
    case ReconcileWith(book) => ReconcileDoes(st, book, id);
    case _ =>
  }

  lemma OthersPost(st: State, step: Step, id: nat)
    requires Good(st) && Enabled(st, step) && IsPostingDraft(st, id)
    ensures LastPost(Given(st, step), st.slots[id].unit, st.slots[id].draft.message) == None
  {
    var slot := st.slots[id];
    LastPostIs(Given(st, step), slot.unit, slot.draft.message);
    forall draft: Draft | draft.message == slot.draft.message
      ensures Post(slot.unit, draft) !in Given(st, step)
    {
      CommandsAre(st, step, Post(slot.unit, draft));
      if step.SubmitText? && step.id in st.slots && step.id != id {
        assert Apart(st.slots[step.id], slot);
      }
    }
  }

  /** In every run, a draft being posted is as it was posted last, with the text its editor holds. */
  lemma {:induction false} PostingWasPosted(steps: seq<Step>, id: nat)
    requires Run(Initial, steps) && IsPostingDraft(After(Initial, steps), id)
    ensures var slot := After(Initial, steps).slots[id];
      && LastPost(AllGiven(Initial, steps), slot.unit, slot.draft.message) == Some(slot.draft)
      && slot.draft.text == slot.text
    decreases |steps|
  {
    EveryRunIsGood(steps);
    if steps != [] {
      var before, last := steps[..|steps| - 1], steps[|steps| - 1];
      var st := After(Initial, before);
      var slot := After(Initial, steps).slots[id];
      EveryRunIsGood(before);
      PostingBegins(st, last, id);
      LastPostOfBoth(AllGiven(Initial, before), Given(st, last), slot.unit, slot.draft.message);
      if last == SubmitText(id) && !IsPostingDraft(st, id) {
        CommandsAre(st, last, Post(slot.unit, slot.draft));
        assert Given(st, last) == [Post(slot.unit, slot.draft)];
      } else {
        PostingWasPosted(before, id);
        OthersPost(st, last, id);
      }
    }
  }

  /**
   In every run, a draft that an acknowledgement closes is closed as posted, and what was posted last for its
   message is the draft, with the text its editor held.
   */
  lemma {:induction false} AcknowledgedWasPosted(steps: seq<Step>, unit: Review, message: nat, id: nat)
    requires Run(Initial, steps)
    requires var st := After(Initial, steps); id in st.slots && IsPosting(st.slots[id], unit, message)
    ensures var slot, next := After(Initial, steps).slots[id], Next(After(Initial, steps), Acknowledge(unit, message));
      && id in next.slots && next.slots[id] == Closed(unit, message, Posted)
      && LastPost(AllGiven(Initial, steps), unit, message) == Some(slot.draft) && slot.draft.text == slot.text
  {
    EveryRunIsGood(steps);
    PostingWasPosted(steps, id);
    AcknowledgedIsPosted(After(Initial, steps), unit, message, id);
  }
}
