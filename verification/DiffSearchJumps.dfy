/**
 Where the diff viewer's search moves the cursor: for every input, told from the matches and the place the
 search started at (`crates/diff-search/src/lib.rs`).
 */
module DiffSearchJumps {
  import opened Common
  import opened Wrappers
  import opened DiffSearch
  import opened DiffSearchRuns
  import opened DiffSearchStepping

  /** The moves among the intents, in turn. */
  function Jumps(intents: seq<Intent>): seq<Intent> {
    if intents == [] then []
    else (if intents[0].Jump? then [intents[0]] else []) + Jumps(intents[1..])
  }

  lemma {:induction false} JumpsOfBoth(a: seq<Intent>, b: seq<Intent>)
    ensures Jumps(a + b) == Jumps(a) + Jumps(b)
    decreases |a|
  {
    if a == [] {
      assert a + b == b;
    } else {
      var first := if a[0].Jump? then [a[0]] else [];
      JumpsOfBoth(a[1..], b);
      assert (a + b)[1..] == a[1..] + b && (a + b)[0] == a[0];
      assert Jumps(a + b) == first + Jumps(a[1..] + b);
      hide Jumps;
      Associate(first, Jumps(a[1..]), Jumps(b));
    }
  }

  lemma JumpsOfOne(intent: Intent)
    ensures Jumps([intent]) == if intent.Jump? then [intent] else []
  {
  }

  /** The first match after `from`, or the first of all when none is after it. */
  ghost predicate IsNext(matches: seq<Location>, from: Location, to: Location) {
    && to in matches
    && if Less(from, to) then forall m :: m in matches && Less(from, m) ==> m == to || Less(to, m)
       else forall m :: m in matches ==> !Less(from, m) && (m == to || Less(to, m))
  }

  /** One move to the next match, or none when there is no match. */
  ghost predicate MovesToNext(matches: seq<Location>, from: Location, remember: bool, jumps: seq<Intent>) {
    if matches == [] then jumps == []
    else exists to :: IsNext(matches, from, to) && jumps == [Jump(to, remember)]
  }

  /** The cursor follows the query from where the search started; without a query it is back there. */
  ghost predicate FollowsQuery(s: Active, jumps: seq<Intent>) {
    if s.query == "" then jumps == [Jump(s.origin, false)] else MovesToNext(s.matches, s.origin, false, jumps)
  }

  /** The query after an edit: a character more, one less, or a pasted text more, its line ends spaces. */
  ghost predicate IsEditedQuery(query: string, edit: Edit, edited: string) {
    match edit
    case Type(character) => |edited| == |query| + 1 && query <= edited && edited[|query|] == character
    case Backspace => if query == "" then edited == "" else |edited| == |query| - 1 && edited <= query
    case Paste(text) =>
      && |edited| == |query| + |text| && query <= edited
      && forall i :: 0 <= i < |text| ==>
           edited[|query| + i] == if text[i] == '\n' || text[i] == '\r' then ' ' else text[i]
    case _ => edited == query
  }

  /** Whether the results of the request pending move the cursor: a new request's when the search is followed. */
  ghost predicate Navigates(before: Option<Active>, input: Input, s: Active) {
    if input.BeginTyping? || input.FindWord? then s.navigateOnResults
    else
      before.Some? &&
      (s.pending.Some? ==>
         s.navigateOnResults ==
         if s.pending == before.value.pending || input.Delivered? then before.value.navigateOnResults
         else s.editing || s.waitingForRepository)
  }

  /** Where an input to the search `before` moves the cursor, when it leaves the search `after`. */
  ghost predicate Moves(before: Option<Active>, documents: seq<Document>, input: Input, after: Option<Active>,
        jumps: seq<Intent>)
  {
    match input
    case BeginTyping(origin) => after.Some? && after.value.query == "" && after.value.origin == origin && jumps == []
    case FindWord(word, origin) =>
      && after.Some? && after.value.query == word && after.value.origin == origin
      && MovesToNext(after.value.matches, origin, true, jumps)
    case Change(edit) =>
      if before == None || !before.value.editing then after == before && jumps == []
      else if edit == Cancel then after == None && jumps == [Jump(before.value.origin, false)]
      else
        && after.Some? && after.value.origin == before.value.origin && after.value.editing == (edit != Accept)
        && IsEditedQuery(before.value.query, edit, after.value.query)
        && if edit == Accept then jumps == [] else FollowsQuery(after.value, jumps)
    case LoadDocument =>
      if before == None || !(before.value.editing || before.value.waitingForRepository) then jumps == []
      else after.Some? && after.value.origin == before.value.origin && FollowsQuery(after.value, jumps)
    case Delivered(results) =>
      if before.Some? && before.value.pending.Some? && before.value.pending.value.id == results.id
         && before.value.pending.value.documents == Texts(documents) && before.value.navigateOnResults
      then after.Some? && after.value.origin == before.value.origin && FollowsQuery(after.value, jumps)
      else jumps == []
    case _ => jumps == []
  }

  lemma FirstAfterIsNext(matches: seq<Location>, from: Location)
    requires Sorted(matches)
    ensures if matches == [] then FirstAfter(matches, from) == None
            else FirstAfter(matches, from).Some? && IsNext(matches, from, FirstAfter(matches, from).value)
  {
    if matches != [] {
      var after, _ := StepsToNearest(matches, from);
    }
  }

  lemma JumpFromOriginFollows(s: Active)
    requires Sorted(s.matches)
    ensures FollowsQuery(s, Jumps(Few(JumpFromOrigin(s))))
  {
    FirstAfterIsNext(s.matches, s.origin);
  }

  lemma {:induction false} OnOneLineIs(text: string)
    ensures forall i :: 0 <= i < |text| ==>
              OnOneLine(text)[i] == if text[i] == '\n' || text[i] == '\r' then ' ' else text[i]
  {
    if text != "" {
      OnOneLineIs(text[1..]);
    }
  }

  lemma EditedQueryIs(query: string, edit: Edit)
    ensures IsEditedQuery(query, edit, EditedQuery(query, edit))
  {
    if edit.Paste? {
      OnOneLineIs(edit.text);
    }
  }

  /** A refresh moves nothing, and keeps the search where it started. */
  lemma RefreshedMoves(engine: Engine, s: Active, documents: seq<Document>, id: nat)
    ensures var (next, asked) := Refreshed(engine, s, documents, id);
      && Jumps(Few(asked)) == []
      && next.query == s.query && next.origin == s.origin && next.editing == s.editing
      && next.waitingForRepository == s.waitingForRepository
      && (next.pending.Some? ==>
            next == s || (next.pending.value.id == id && next.navigateOnResults ==
                (s.editing || s.waitingForRepository)))
  {
    var asked := Refreshed(engine, s, documents, id).1;
    if asked.Some? {
      assert Few(asked)[1..] == [];
    }
  }

  lemma BegunMoves(engine: Engine, search: Option<Active>, query: string, editing: bool, origin: Location,
      documents: seq<Document>, id: nat)
    requires var s := Begun(engine, search, query, editing, origin, documents, id).0; Sorted(s.matches)
    ensures var (s, intents) := Begun(engine, search, query, editing, origin, documents, id);
      && s.query == query && s.origin == origin && s.navigateOnResults
      && if editing then Jumps(intents) == [] else MovesToNext(s.matches, origin, true, Jumps(intents))
  {
    var s := Active(query, origin, editing, false, [], None, None, false);
    var asked := Refreshed(engine, s, documents, id).1;
    RefreshedMoves(engine, s, documents, id);
    var begun := Begun(engine, search, query, editing, origin, documents, id).0;
    var jump := if editing then [] else Few(Stepped(begun, Forward, origin));
    FirstAfterIsNext(begun.matches, origin);
    JumpsOfBoth(CancelPending(search), Few(asked));
    JumpsOfBoth(CancelPending(search) + Few(asked), jump);
    JumpsOfBoth(CancelPending(search) + Few(asked) + jump, [Status(true)]);
    assert CancelPending(search) != [] ==> CancelPending(search)[1..] == [];
    assert jump != [] ==> jump[1..] == [];
  }

  /** The moves of a search that follows its query. */
  lemma FollowedMoves(s: Active, asked: Option<Intent>, rest: seq<Intent>)
    requires Sorted(s.matches) && Jumps(Few(asked)) == [] && Jumps(rest) == []
    ensures FollowsQuery(s, Jumps(Few(asked) + Few(JumpFromOrigin(s)) + rest))
  {
    JumpFromOriginFollows(s);
    JumpsOfBoth(Few(asked), Few(JumpFromOrigin(s)));
    JumpsOfBoth(Few(asked) + Few(JumpFromOrigin(s)), rest);
  }

  lemma EditMoves(engine: Engine, w: World, edit: Edit, id: nat)
    requires Lawful(engine) && Good(engine, w) && Enabled(engine, w, Change(edit), id)
    ensures var (after, intents) := Respond(engine, w, Change(edit), id);
      Moves(w.search, w.documents, Change(edit), after, Jumps(intents))
  {
    if w.search.Some? && w.search.value.editing && edit != Accept && edit != Cancel {
      var s := w.search.value.(query := EditedQuery(w.search.value.query, edit));
      var (next, asked) := Refreshed(engine, s, w.documents, id);
      GoodStays(engine, w, Change(edit), id);
      MatchesAreSorted(engine, Next(engine, w, Change(edit), id));
      RefreshedMoves(engine, s, w.documents, id);
      EditedQueryIs(w.search.value.query, edit);
      FollowedMoves(next, asked, [Status(true)]);
    } else if w.search.Some? && w.search.value.editing && edit == Cancel {
      JumpsOfBoth(CancelPending(w.search), [Jump(w.search.value.origin, false), Status(true)]);
    }
  }

  lemma LoadMoves(engine: Engine, w: World, id: nat)
    requires Lawful(engine) && Good(engine, w) && Enabled(engine, w, LoadDocument, id)
    ensures var (after, intents) := Respond(engine, w, LoadDocument, id);
      Moves(w.search, w.documents, LoadDocument, after, Jumps(intents))
  {
    if w.search.Some? {
      var (next, asked) := Refreshed(engine, w.search.value, w.documents, id);
      GoodStays(engine, w, LoadDocument, id);
      MatchesAreSorted(engine, Next(engine, w, LoadDocument, id));
      RefreshedMoves(engine, w.search.value, w.documents, id);
      FollowedMoves(next, asked, []);
      assert Few(asked) + Few(JumpFromOrigin(next)) + [] == Few(asked) + Few(JumpFromOrigin(next));
      assert Few(asked) + [] == Few(asked);
    }
  }

  lemma AnswerMoves(engine: Engine, w: World, results: Results, id: nat)
    requires Lawful(engine) && Good(engine, w) && Enabled(engine, w, Delivered(results), id)
    ensures var (after, intents) := Respond(engine, w, Delivered(results), id);
      Moves(w.search, w.documents, Delivered(results), after, Jumps(intents))
  {
    if IsAwaited(w.search, results) {
      var s := w.search.value;
      if IsFresh(s, w.documents) {
        GoodStays(engine, w, Delivered(results), id);
        MatchesAreSorted(engine, Next(engine, w, Delivered(results), id));
        FollowedMoves(Accepted(s, results, w.documents), None, [Status(true)]);
        var jump := Few(JumpFromOrigin(Accepted(s, results, w.documents)));
        assert Few(None) + jump == jump;
      } else {
        RefreshedMoves(engine, s, w.documents, id);
      }
    }
  }

  /** Where every input, in any good state, moves the cursor. */
  lemma {:induction false} MovesAre(engine: Engine, w: World, input: Input, id: nat)
    requires Lawful(engine) && Good(engine, w) && Enabled(engine, w, input, id)
    ensures var (after, intents) := Respond(engine, w, input, id);
      Moves(w.search, w.documents, input, after, Jumps(intents))
  {
    match input
    case BeginTyping(origin) =>
      GoodStays(engine, w, input, id);
      MatchesAreSorted(engine, Next(engine, w, input, id));
      BegunMoves(engine, w.search, "", true, origin, w.documents, id);
    case FindWord(word, origin) =>
      GoodStays(engine, w, input, id);
      MatchesAreSorted(engine, Next(engine, w, input, id));
      BegunMoves(engine, w.search, word, false, origin, w.documents, id);
    case Change(edit) => EditMoves(engine, w, edit, id);
    case Clear => JumpsOfBoth(CancelPending(w.search), [Status(true)]);
    case Refresh =>
      if w.search.Some? {
        RefreshedMoves(engine, w.search.value, w.documents, id);
      }
    case LoadDocument => LoadMoves(engine, w, id);
    case Resume =>
      if w.search.Some? {
        RefreshedMoves(engine, w.search.value, w.documents, id);
      }
    case Delivered(results) => AnswerMoves(engine, w, results, id);
    case _ =>
  }

  /** The last match before `from`, or the last of all when none is before it. */
  ghost predicate IsPrevious(matches: seq<Location>, from: Location, to: Location) {
    && to in matches
    && if Less(to, from) then forall m :: m in matches && Less(m, from) ==> m == to || Less(m, to)
       else forall m :: m in matches ==> !Less(m, from) && (m == to || Less(m, to))
  }

  /** Where a step moves the cursor: while the query is edited, or without a match, nowhere. */
  lemma {:induction false} StepMoves(search: Option<Active>, direction: Direction, current: Option<Location>)
    requires search.Some? ==> Sorted(search.value.matches)
    ensures var jumps := Jumps(StepTaken(search, direction, current));
      if search == None || search.value.editing || search.value.matches == [] || current == None then jumps == []
      else
        exists to ::
          && jumps == [Jump(to, true)]
          && if direction.Forward? then IsNext(search.value.matches, current.value, to)
             else IsPrevious(search.value.matches, current.value, to)
  {
    if search.Some? && !search.value.editing && current.Some? {
      var matches, from := search.value.matches, current.value;
      if matches != [] {
        FirstAfterIsNext(matches, from);
        var _, before := StepsToNearest(matches, from);
        assert IsPrevious(matches, from, FirstBefore(matches, from).value);
      }
      JumpsOfBoth(Few(Stepped(search.value, direction, from)), [Status(true)]);
    }
  }

  /** Whether the results of the request pending will move the cursor, after every input. */
  lemma {:induction false} NavigationIs(engine: Engine, w: World, input: Input, id: nat)
    requires Good(engine, w) && Enabled(engine, w, input, id)
    ensures var after := Respond(engine, w, input, id).0; after.Some? ==> Navigates(w.search, input, after.value)
  {
    if w.search.Some? {
      RefreshedMoves(engine, w.search.value, w.documents, id);
      if input.Change? {
        RefreshedMoves(
          engine, w.search.value.(query := EditedQuery(w.search.value.query, input.edit)), w.documents, id);
      }
    }
  }

  /** The size in bytes of all the texts. */
  function Bytes(engine: Engine, documents: seq<Document>): nat {
    if documents == [] then 0
    else Bytes(engine, documents[..|documents| - 1]) + engine.size(documents[|documents| - 1].text)
  }

  lemma {:induction false} TotalSizeOfBoth(size: Handle -> nat, a: seq<Handle>, b: seq<Handle>)
    ensures TotalSize(size, a + b) == TotalSize(size, a) + TotalSize(size, b)
    decreases |a|
  {
    if a == [] {
      assert a + b == b;
    } else {
      assert (a + b)[1..] == a[1..] + b;
      TotalSizeOfBoth(size, a[1..], b);
    }
  }

  lemma {:induction false} BytesAre(engine: Engine, documents: seq<Document>)
    ensures TotalSize(engine.size, Texts(documents)) == Bytes(engine, documents)
  {
    if documents != [] {
      var before, last := documents[..|documents| - 1], documents[|documents| - 1];
      BytesAre(engine, before);
      TotalSizeOfBoth(engine.size, Texts(before), [last.text]);
      assert [last.text][1..] == [];
      assert Texts(documents) == Texts(before) + [last.text];
    }
  }

  /** Texts of more than 64 KiB are handed to the worker, and others searched at once. */
  lemma {:induction false} WorkerIsAskedForLarge(engine: Engine, s: Active, documents: seq<Document>, id: nat)
    ensures var (next, asked) := Refreshed(engine, s, documents, id);
      var request := Request(id, s.query, Texts(documents));
      && (asked.Some? && asked.value.Ask? ==> asked.value.request == request && Bytes(engine, documents) > 65536)
      && (next != s && s.query != "" ==>
            if Bytes(engine, documents) > 65536 then asked == Some(Ask(request)) && next.pending == Some(request)
            else next.pending == None && next.matched == Some(request))
  {
    BytesAre(engine, documents);
  }
}
