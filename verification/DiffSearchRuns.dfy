/**
 The diff viewer's search over whole runs: the reviewer's inputs, document changes, and a worker
 that answers late, more than once, or never.
 */
module DiffSearchRuns {
  import opened Wrappers
  import opened DiffSearch

  /** What happens to one viewer. `Delivered` and `Kept` are results of any request, of any viewer. */
  datatype Input =
    | BeginTyping(origin: Location)
    | FindWord(word: string, origin: Location)
    | Change(edit: Edit)
    | Clear
    | Refresh
    | LoadDocument
    | SetWaiting(waiting: bool)
    | Resume
    | Delivered(results: Results)
    | Kept(results: Results)
    | ReplaceDocuments(documents: seq<Document>)

  /**
   `used` holds the identity of every request made, and `issued` the requests handed to the worker.
   `outstanding` is the last of these that was neither cancelled nor answered since, as the intents
   and the results tell it. `shown` are the documents the matches were located in.
   */
  datatype World = World(
    search: Option<Active>,
    documents: seq<Document>,
    used: set<nat>,
    issued: map<nat, Request>,
    outstanding: Option<Request>,
    shown: seq<Document>)

  /** Strictly increasing matches in the texts there are. */
  ghost predicate LawfulMatches(matches: seq<Match>, texts: seq<Handle>) {
    && (forall i :: 0 <= i < |matches| ==> matches[i].documentIndex < |texts|)
    && forall i, j :: 0 <= i < j < |matches| ==>
         || matches[i].documentIndex < matches[j].documentIndex
         || (matches[i].documentIndex == matches[j].documentIndex
             && PositionLess(matches[i].position, matches[j].position))
  }

  ghost predicate Lawful(engine: Engine) {
    forall query, texts :: LawfulMatches(engine.find(query, texts), texts)
  }

  /** The worker answers a request of this viewer with what a direct search finds. */
  ghost predicate Honest(engine: Engine, w: World, results: Results) {
    results.id in w.issued ==>
      results.matches == engine.find(w.issued[results.id].query, w.issued[results.id].documents)
  }

  /** `id` is the identity a request made in this step gets: one no request had before. */
  ghost predicate Enabled(engine: Engine, w: World, input: Input, id: nat) {
    id !in w.used && (input.Delivered? || input.Kept? ==> Honest(engine, w, input.results))
  }

  function Respond(engine: Engine, w: World, input: Input, id: nat): (Option<Active>, seq<Intent>) {
    match input
    case BeginTyping(origin) =>
      var (next, intents) := Begun(engine, w.search, "", true, origin, w.documents, id); (Some(next), intents)
    case FindWord(word, origin) =>
      var (next, intents) := Begun(engine, w.search, word, false, origin, w.documents, id); (Some(next), intents)
    case Change(edit) => Edited(engine, w.search, edit, w.documents, id)
    case Clear => (None, CancelPending(w.search) + [Status(true)])
    case Refresh => RefreshedSearch(engine, w.search, w.documents, id)
    case LoadDocument => Loaded(engine, w.search, w.documents, id)
    case SetWaiting(waiting) =>
      (if w.search.Some? then Some(w.search.value.(waitingForRepository := waiting)) else None, [])
    case Resume => Resumed(engine, w.search, w.documents, id)
    case Delivered(results) => Completed(engine, w.search, results, w.documents, id)
    case Kept(results) => (Retained(w.search, results, w.documents), [])
    case ReplaceDocuments(_) => (w.search, [])
  }

  /** What is outstanding once `intent` is applied. */
  function Apply(request: Option<Request>, intent: Intent): Option<Request> {
    match intent case Ask(asked) => Some(asked) case CancelRequest => None case _ => request
  }

  function Record(issued: map<nat, Request>, intent: Intent): map<nat, Request> {
    if intent.Ask? then issued[intent.request.id := intent.request] else issued
  }

  function Outstanding(request: Option<Request>, intents: seq<Intent>): Option<Request>
    decreases |intents|
  {
    if intents == [] then request else Outstanding(Apply(request, intents[0]), intents[1..])
  }

  function Requests(issued: map<nat, Request>, intents: seq<Intent>): map<nat, Request>
    decreases |intents|
  {
    if intents == [] then issued else Requests(Record(issued, intents[0]), intents[1..])
  }

  /** Whether the matches of `s` were computed anew by a step from `before`. */
  predicate Recomputed(before: Option<Active>, s: Option<Active>) {
    s.Some? && s.value.matched.Some? && (before == None || before.value.matched != s.value.matched)
  }

  function Next(engine: Engine, w: World, input: Input, id: nat): World {
    var (search, intents) := Respond(engine, w, input, id);
    var answered := (input.Delivered? || input.Kept?)
      && w.outstanding.Some? && w.outstanding.value.id == input.results.id;
    World(
      search,
      if input.ReplaceDocuments? then input.documents else w.documents,
      w.used + {id},
      Requests(w.issued, intents),
      Outstanding(if answered then None else w.outstanding, intents),
      if Recomputed(w.search, search) then w.documents else w.shown)
  }

  // The invariant.

  /** What holds of a search whatever its query was changed to since. */
  ghost predicate Consistent(engine: Engine, s: Active, w: World) {
    && (s.pending == None || s.matched == None)
    && (s.pending.Some? ==>
          && s.pending.value.query != "" && s.pending.value.id in w.used
          && s.pending.value.id in w.issued && w.issued[s.pending.value.id] == s.pending.value)
    && (s.matched.Some? ==>
          && s.matched.value.query != "" && s.matched.value.id in w.used
          && s.matched.value.documents == Texts(w.shown)
          && s.matches == Located(engine.find(s.matched.value.query, Texts(w.shown)), w.shown))
    && (s.matched == None ==> s.matches == [])
  }

  /**
   Never a request pending and one matched; both are for the current query; and the matches are the
   direct search of what was matched, or empty when nothing was.
   */
  ghost predicate GoodSearch(engine: Engine, s: Active, w: World) {
    && Consistent(engine, s, w)
    && (s.pending.Some? ==> s.pending.value.query == s.query)
    && (s.matched.Some? ==> s.matched.value.query == s.query)
  }

  ghost predicate Good(engine: Engine, w: World) {
    && w.issued.Keys <= w.used
    && (w.search.Some? ==> GoodSearch(engine, w.search.value, w))
    && w.outstanding == Pending(w.search)
  }

  const Initial := World(None, [], {}, map[], None, [])

  function Pending(search: Option<Active>): Option<Request> {
    if search.Some? then search.value.pending else None
  }

  /** Either a request for the query in `documents` is pending, or the matches are those of it. */
  ghost predicate UpToDate(engine: Engine, s: Active, w: World, documents: seq<Document>) {
    if s.query == "" then s.pending == None && s.matches == []
    else if s.pending.Some? then s.pending.value.query == s.query && s.pending.value.documents == Texts(documents)
    else
      && Texts(w.shown) == Texts(documents)
      && s.matches == Located(engine.find(s.query, Texts(documents)), w.shown)
  }

  // One step keeps the invariant.

  predicate Neutral(intents: seq<Intent>) {
    forall i :: 0 <= i < |intents| ==> intents[i].Jump? || intents[i].Status?
  }

  lemma {:induction false} FoldOfBoth(request: Option<Request>, issued: map<nat, Request>, a: seq<Intent>,
        b: seq<Intent>)
    ensures Outstanding(request, a + b) == Outstanding(Outstanding(request, a), b)
    ensures Requests(issued, a + b) == Requests(Requests(issued, a), b)
    decreases |a|
  {
    if a == [] {
      assert a + b == b;
    } else {
      assert (a + b)[1..] == a[1..] + b;
      FoldOfBoth(Apply(request, a[0]), Record(issued, a[0]), a[1..], b);
    }
  }

  lemma {:induction false} FoldOfNeutral(request: Option<Request>, issued: map<nat, Request>, intents: seq<Intent>)
    requires Neutral(intents)
    ensures Outstanding(request, intents) == request && Requests(issued, intents) == issued
    decreases |intents|
  {
    if intents != [] {
      FoldOfNeutral(request, issued, intents[1..]);
    }
  }

  lemma FoldOfFew(request: Option<Request>, issued: map<nat, Request>, asked: Option<Intent>)
    ensures Outstanding(request, Few(asked)) == if asked.Some? then Apply(request, asked.value) else request
    ensures Requests(issued, Few(asked)) == if asked.Some? then Record(issued, asked.value) else issued
  {
    if asked.Some? {
      assert Few(asked)[1..] == [];
    }
  }

  /** The world after a search refreshed, with its intents applied. */
  function AfterRefresh(w: World, s: Active, next: Active, asked: Option<Intent>, id: nat): World {
    w.(search := Some(next),
       used := w.used + {id},
       issued := Requests(w.issued, Few(asked)),
       outstanding := Outstanding(s.pending, Few(asked)),
       shown := if next.matched.Some? && next.matched != s.matched then w.documents else w.shown)
  }

  lemma RefreshKeeps(engine: Engine, s: Active, w: World, id: nat)
    requires Consistent(engine, s, w) && id !in w.used && w.issued.Keys <= w.used
    ensures var (next, asked) := Refreshed(engine, s, w.documents, id);
      var after := AfterRefresh(w, s, next, asked, id);
      && Good(engine, after)
      && UpToDate(engine, next, after, w.documents)
      && next.query == s.query && next.editing == s.editing
  {
    var (next, asked) := Refreshed(engine, s, w.documents, id);
    FoldOfFew(s.pending, w.issued, asked);
  }

  /** Whether `input` computes the matches again when the search needs it. */
  predicate Refreshes(w: World, input: Input) {
    match input
    case BeginTyping(_) => true
    case FindWord(_, _) => true
    case Change(edit) => w.search.Some? && w.search.value.editing && edit != Accept && edit != Cancel
    case Refresh => true
    case LoadDocument => true
    case Resume => Pending(w.search) == None
    case Delivered(results) => IsAwaited(w.search, results)
    case _ => false
  }

  /** The intents of a step: those that refresh the search `s`, between others that ask nothing. */
  lemma FoldOfResponse(w: World, cancel: seq<Intent>, request: Option<Request>, asked: Option<Intent>,
        rest: seq<Intent>)
    requires Outstanding(w.outstanding, cancel) == request && Requests(w.issued, cancel) == w.issued && Neutral(rest)
    ensures Outstanding(w.outstanding, cancel + Few(asked) + rest) == Outstanding(request, Few(asked))
    ensures Requests(w.issued, cancel + Few(asked) + rest) == Requests(w.issued, Few(asked))
  {
    FoldOfBoth(w.outstanding, w.issued, cancel, Few(asked));
    FoldOfBoth(w.outstanding, w.issued, cancel + Few(asked), rest);
    FoldOfNeutral(Outstanding(request, Few(asked)), Requests(w.issued, Few(asked)), rest);
  }

  lemma FoldOfCancel(engine: Engine, w: World)
    requires Good(engine, w)
    ensures Outstanding(w.outstanding, CancelPending(w.search)) == None
    ensures Requests(w.issued, CancelPending(w.search)) == w.issued
  {
    var cancel := if Pending(w.search).Some? then Some(CancelRequest) else None;
    assert CancelPending(w.search) == Few(cancel);
    FoldOfFew(w.outstanding, w.issued, cancel);
  }

  lemma FoldOfBegin(engine: Engine, w: World, query: string, editing: bool, origin: Location, id: nat)
    requires Good(engine, w)
    ensures var s := Active(query, origin, editing, false, [], None, None, false);
      var (next, asked) := Refreshed(engine, s, w.documents, id);
      var intents := Begun(engine, w.search, query, editing, origin, w.documents, id).1;
      && Outstanding(w.outstanding, intents) == Outstanding(None, Few(asked))
      && Requests(w.issued, intents) == Requests(w.issued, Few(asked))
  {
    var s := Active(query, origin, editing, false, [], None, None, false);
    var (next, asked) := Refreshed(engine, s, w.documents, id);
    var jump := if editing then [] else Few(Stepped(next.(navigateOnResults := true), Forward, origin));
    FoldOfCancel(engine, w);
    FoldOfResponse(w, CancelPending(w.search), None, asked, jump + [Status(true)]);
    assert CancelPending(w.search) + Few(asked) + jump + [Status(true)]
        == CancelPending(w.search) + Few(asked) + (jump + [Status(true)]);
  }

  lemma BeginStays(engine: Engine, w: World, query: string, editing: bool, origin: Location, input: Input, id: nat)
    requires Good(engine, w) && Enabled(engine, w, input, id)
    requires input == if editing then BeginTyping(origin) else FindWord(query, origin)
    requires editing ==> query == ""
    ensures var next := Next(engine, w, input, id);
      Good(engine, next) && next.search.Some? && UpToDate(engine, next.search.value, next, next.documents)
  {
    var s := Active(query, origin, editing, false, [], None, None, false);
    RefreshKeeps(engine, s, w, id);
    FoldOfBegin(engine, w, query, editing, origin, id);
  }

  /** A step that refreshes the search, its query perhaps changed to that of `s`. */
  lemma RefreshStays(engine: Engine, w: World, s: Active, input: Input, id: nat, rest: seq<Intent>)
    requires Good(engine, w) && Enabled(engine, w, input, id)
    requires !input.ReplaceDocuments? && !input.Delivered? && !input.Kept?
    requires w.search.Some? && s.pending == Pending(w.search) && s.matched == w.search.value.matched
    requires Consistent(engine, s, w) && Neutral(rest)
    requires var (next, asked) := Refreshed(engine, s, w.documents, id);
      Respond(engine, w, input, id) == (Some(next), Few(asked) + rest)
    ensures var next := Next(engine, w, input, id);
      Good(engine, next) && UpToDate(engine, next.search.value, next, next.documents)
  {
    var (next, asked) := Refreshed(engine, s, w.documents, id);
    RefreshKeeps(engine, s, w, id);
    FoldOfResponse(w, [], s.pending, asked, rest);
    assert [] + Few(asked) == Few(asked);
  }

  lemma FoldOfClear(engine: Engine, w: World, rest: seq<Intent>)
    requires Good(engine, w) && Neutral(rest)
    ensures Outstanding(w.outstanding, CancelPending(w.search) + rest) == None
    ensures Requests(w.issued, CancelPending(w.search) + rest) == w.issued
  {
    FoldOfCancel(engine, w);
    FoldOfBoth(w.outstanding, w.issued, CancelPending(w.search), rest);
    FoldOfNeutral(None, w.issued, rest);
  }

  lemma ChangeStays(engine: Engine, w: World, edit: Edit, id: nat)
    requires Good(engine, w) && Enabled(engine, w, Change(edit), id)
    ensures var next := Next(engine, w, Change(edit), id);
      && Good(engine, next)
      && (Refreshes(w, Change(edit)) ==> next.search.Some? && UpToDate(engine, next.search.value, next, next.documents))
  {
    if Refreshes(w, Change(edit)) {
      var s := w.search.value.(query := EditedQuery(w.search.value.query, edit));
      var (next, asked) := Refreshed(engine, s, w.documents, id);
      var rest := Few(JumpFromOrigin(next)) + [Status(true)];
      assert Few(asked) + Few(JumpFromOrigin(next)) + [Status(true)] == Few(asked) + rest;
      RefreshStays(engine, w, s, Change(edit), id, rest);
    } else if w.search.Some? && w.search.value.editing && edit == Cancel {
      assert CancelPending(w.search) + [Jump(w.search.value.origin, false), Status(true)] ==
          Respond(engine, w, Change(edit), id).1;
      FoldOfClear(engine, w, [Jump(w.search.value.origin, false), Status(true)]);
    } else {
      FoldOfNeutral(w.outstanding, w.issued, Respond(engine, w, Change(edit), id).1);
    }
  }

  lemma LoadStays(engine: Engine, w: World, id: nat)
    requires Good(engine, w) && Enabled(engine, w, LoadDocument, id) && w.search.Some?
    ensures var next := Next(engine, w, LoadDocument, id);
      Good(engine, next) && next.search.Some? && UpToDate(engine, next.search.value, next, next.documents)
  {
    var (next, asked) := Refreshed(engine, w.search.value, w.documents, id);
    var rest := if next.editing || next.waitingForRepository then Few(JumpFromOrigin(next)) else [];
    RefreshStays(engine, w, w.search.value, LoadDocument, id, rest);
  }

  lemma ResumeStays(engine: Engine, w: World, id: nat)
    requires Good(engine, w) && Enabled(engine, w, Resume, id) && w.search.Some?
    ensures var next := Next(engine, w, Resume, id);
      && Good(engine, next)
      && (Refreshes(w, Resume) ==> next.search.Some? && UpToDate(engine, next.search.value, next, next.documents))
  {
    if Pending(w.search).Some? {
      FoldOfFew(w.outstanding, w.issued, Some(Ask(Pending(w.search).value)));
      assert Record(w.issued, Ask(Pending(w.search).value)) == w.issued;
    } else {
      assert forall asked :: Few(asked) + [] == Few(asked);
      RefreshStays(engine, w, w.search.value, Resume, id, []);
    }
  }

  /** Results the search awaits: they answer the outstanding request. */
  lemma AnswerStays(engine: Engine, w: World, input: Input, id: nat)
    requires Good(engine, w) && Enabled(engine, w, input, id)
    requires (input.Delivered? || input.Kept?) && IsAwaited(w.search, input.results)
    ensures var next := Next(engine, w, input, id);
      && Good(engine, next)
      && (Refreshes(w, input) ==> next.search.Some? && UpToDate(engine, next.search.value, next, next.documents))
  {
    var s := w.search.value;
    var intents := Respond(engine, w, input, id).1;
    if input.Kept? || IsFresh(s, w.documents) {
      FoldOfNeutral(None, w.issued, intents);
    } else {
      var (next, asked) := Refreshed(engine, s, w.documents, id);
      RefreshKeeps(engine, s, w, id);
      FoldOfFew(None, w.issued, asked);
      FoldOfFew(s.pending, w.issued, asked);
    }
  }

  /**
   Every step keeps the search good, and one that refreshes it leaves it up to date with the
   documents there are.
   */
  lemma {:induction false} GoodStays(engine: Engine, w: World, input: Input, id: nat)
    requires Good(engine, w) && Enabled(engine, w, input, id)
    ensures var next := Next(engine, w, input, id);
      && Good(engine, next)
      && (Refreshes(w, input) && next.search.Some? ==> UpToDate(engine, next.search.value, next, next.documents))
  {
    match input
    case BeginTyping(origin) => BeginStays(engine, w, "", true, origin, input, id);
    case FindWord(word, origin) => BeginStays(engine, w, word, false, origin, input, id);
    case Change(edit) => ChangeStays(engine, w, edit, id);
    case Clear =>
      FoldOfClear(engine, w, [Status(true)]);
    case Refresh =>
      if w.search.Some? {
        assert forall asked :: Few(asked) + [] == Few(asked);
        RefreshStays(engine, w, w.search.value, input, id, []);
      }
    case LoadDocument =>
      if w.search.Some? {
        LoadStays(engine, w, id);
      }
    case Resume =>
      if w.search.Some? {
        ResumeStays(engine, w, id);
      }
    case Delivered(results) =>
      if IsAwaited(w.search, results) {
        AnswerStays(engine, w, input, id);
      }
    case Kept(results) =>
      if IsAwaited(w.search, results) {
        AnswerStays(engine, w, input, id);
      }
    case _ =>
  }

  // Whole runs.

  /** The world after `inputs`, each with the identity a request made in it gets. */
  function After(engine: Engine, inputs: seq<(Input, nat)>): World {
    if inputs == [] then Initial
    else Next(engine, After(engine, inputs[..|inputs| - 1]), inputs[|inputs| - 1].0, inputs[|inputs| - 1].1)
  }

  ghost predicate Run(engine: Engine, inputs: seq<(Input, nat)>) {
    inputs == [] ||
    var before := inputs[..|inputs| - 1];
    Run(engine, before) && Enabled(engine, After(engine, before), inputs[|inputs| - 1].0, inputs[|inputs| - 1].1)
  }

  lemma {:induction false} RunsAreGood(engine: Engine, inputs: seq<(Input, nat)>)
    requires Run(engine, inputs)
    ensures Good(engine, After(engine, inputs))
  {
    if inputs != [] {
      var before := inputs[..|inputs| - 1];
      RunsAreGood(engine, before);
      GoodStays(engine, After(engine, before), inputs[|inputs| - 1].0, inputs[|inputs| - 1].1);
    }
  }

  /** After any run and then a refresh, either the current query is searched for or it was. */
  lemma {:induction false} RunsRefresh(engine: Engine, inputs: seq<(Input, nat)>, id: nat)
    requires Run(engine, inputs) && Enabled(engine, After(engine, inputs), Refresh, id)
    ensures var w := Next(engine, After(engine, inputs), Refresh, id);
      w.search.Some? ==> UpToDate(engine, w.search.value, w, w.documents)
  {
    RunsAreGood(engine, inputs);
    GoodStays(engine, After(engine, inputs), Refresh, id);
  }

  // The paths of the matches.

  /** Whether the documents matches were located in have the paths of the documents there are. */
  ghost predicate SamePaths(matches: seq<Match>, shown: seq<Document>, documents: seq<Document>)
    requires |shown| == |documents|
  {
    forall found :: found in matches && found.documentIndex < |documents| ==>
      shown[found.documentIndex].path == documents[found.documentIndex].path
  }

  lemma EqualParts(a: Location, s: seq<Location>, b: Location, t: seq<Location>)
    ensures [a] + s == [b] + t <==> a == b && s == t
  {
    if [a] + s == [b] + t {
      assert ([a] + s)[0] == a && ([b] + t)[0] == b;
      assert ([a] + s)[1..] == s && ([b] + t)[1..] == t;
    }
  }

  lemma SamePathsOfFirst(matches: seq<Match>, shown: seq<Document>, documents: seq<Document>)
    requires |shown| == |documents| && matches != []
    ensures SamePaths(matches, shown, documents) <==>
            (SamePaths(matches[..1], shown, documents) && SamePaths(matches[1..], shown, documents))
  {
    assert matches == matches[..1] + matches[1..];
  }

  lemma {:induction false} LocatedInBoth(matches: seq<Match>, shown: seq<Document>, documents: seq<Document>)
    requires |shown| == |documents|
    ensures |Located(matches, shown)| == |Located(matches, documents)|
    ensures Located(matches, shown) == Located(matches, documents) <==> SamePaths(matches, shown, documents)
    decreases |matches|
  {
    if matches != [] {
      var first, found := matches[0], matches[0].documentIndex;
      LocatedInBoth(matches[1..], shown, documents);
      SamePathsOfFirst(matches, shown, documents);
      assert first in matches[..1];
      if found < |documents| {
        EqualParts(
          Location(found, shown[found].path, first.position), Located(matches[1..], shown),
          Location(found, documents[found].path, first.position), Located(matches[1..], documents));
      } else {
        assert [] + Located(matches[1..], shown) == Located(matches[1..], shown);
        assert [] + Located(matches[1..], documents) == Located(matches[1..], documents);
      }
    }
  }

  /**
   A search up to date with `documents` that waits for nothing shows exactly their direct search if
   and only if no matched document was renamed, its text the same, since the matches were computed.
   */
  lemma {:induction false} MatchesAreDirectSearch(engine: Engine, w: World, documents: seq<Document>)
    requires Good(engine, w) && w.search.Some? && UpToDate(engine, w.search.value, w, documents)
    requires w.search.value.query != "" && w.search.value.pending == None
    ensures Texts(w.shown) == Texts(documents)
    ensures w.search.value.matches == Located(engine.find(w.search.value.query, Texts(documents)), documents) <==>
            SamePaths(engine.find(w.search.value.query, Texts(documents)), w.shown, documents)
  {
    assert |w.shown| == |Texts(w.shown)|;
    LocatedInBoth(engine.find(w.search.value.query, Texts(documents)), w.shown, documents);
  }

  /** Whether each text has one path, that `path` gives. */
  ghost predicate HavePaths(documents: seq<Document>, path: Handle -> string) {
    forall i :: 0 <= i < |documents| ==> documents[i].path == path(documents[i].text)
  }

  ghost predicate InputsHavePaths(inputs: seq<(Input, nat)>, path: Handle -> string) {
    forall k :: 0 <= k < |inputs| ==> inputs[k].0.ReplaceDocuments? ==> HavePaths(inputs[k].0.documents, path)
  }

  lemma {:induction false} PathsStay(engine: Engine, inputs: seq<(Input, nat)>, path: Handle -> string)
    requires InputsHavePaths(inputs, path)
    ensures HavePaths(After(engine, inputs).documents, path) && HavePaths(After(engine, inputs).shown, path)
    decreases |inputs|
  {
    if inputs != [] {
      hide Respond;
      var before, last := inputs[..|inputs| - 1], inputs[|inputs| - 1];
      PathsStay(engine, before, path);
      assert last.0.ReplaceDocuments? ==> HavePaths(last.0.documents, path);
    }
  }

  /**
   Over every run in which no text changes its path, as in the viewer, whose documents keep theirs: after any
   refresh, a request for the query in the documents there are is pending, or the matches are exactly their
   direct search.
   */
  lemma {:induction false} RefreshIsDirectSearch(engine: Engine, inputs: seq<(Input, nat)>, id: nat,
                                                 path: Handle -> string)
    requires Run(engine, inputs) && Enabled(engine, After(engine, inputs), Refresh, id)
    requires InputsHavePaths(inputs, path)
    ensures var w := Next(engine, After(engine, inputs), Refresh, id);
      w.search.Some? ==>
        var s := w.search.value;
        if s.query == "" then s.pending == None && s.matches == []
        else if s.pending.Some? then
          s.pending.value.query == s.query && s.pending.value.documents == Texts(w.documents)
        else s.matches == Located(engine.find(s.query, Texts(w.documents)), w.documents)
  {
    hide Next, After, Located;
    RunsRefresh(engine, inputs, id);
    var more := inputs + [(Refresh, id)];
    Extend(engine, inputs, Refresh, id);
    PathsStay(engine, more, path);
    var w := Next(engine, After(engine, inputs), Refresh, id);
    if Texts(w.shown) == Texts(w.documents) {
      SameTextsSameDocuments(w.shown, w.documents, path);
    }
  }

  lemma SameTextsSameDocuments(shown: seq<Document>, documents: seq<Document>, path: Handle -> string)
    requires Texts(shown) == Texts(documents) && HavePaths(shown, path) && HavePaths(documents, path)
    ensures shown == documents
  {
    assert |shown| == |Texts(shown)| == |documents|;
    forall i | 0 <= i < |shown|
      ensures shown[i] == documents[i]
    {
      assert Texts(shown)[i] == Texts(documents)[i];
    }
  }

  lemma Extend(engine: Engine, inputs: seq<(Input, nat)>, input: Input, id: nat)
    requires Run(engine, inputs) && Enabled(engine, After(engine, inputs), input, id)
    ensures Run(engine, inputs + [(input, id)])
    ensures After(engine, inputs + [(input, id)]) == Next(engine, After(engine, inputs), input, id)
  {
    assert (inputs + [(input, id)])[..|inputs|] == inputs;
  }

  lemma SmallSearch(engine: Engine, s: Active, id: nat)
    requires engine.size(0) == 0 && engine.find("x", [0]) == [Match(0, Position(0, 0))]
    requires s.query == "x" && s.pending == None && s.matched == None
    ensures Refreshed(engine, s, [Document("old", 0)], id) ==
            (s.(matches := [Location(0, "old", Position(0, 0))], matched := Some(Request(id, "x", [0]))), None)
  {
    var texts := Texts([Document("old", 0)]);
    assert texts == [0];
    assert texts[1..] == [];
    assert TotalSize(engine.size, texts) == 0;
    var matches := engine.find("x", texts);
    assert matches[1..] == [];
    assert Located(matches, [Document("old", 0)]) == [Location(0, "old", Position(0, 0))];
  }

  /** A run that finds a word in one small document. */
  lemma {:induction false} FindOnce(engine: Engine) returns (inputs: seq<(Input, nat)>, found: Active)
    requires engine.size(0) == 0 && engine.find("x", [0]) == [Match(0, Position(0, 0))]
    ensures Run(engine, inputs)
    ensures found.query == "x" && found.pending == None && found.matches == [Location(0, "old", Position(0, 0))]
    ensures found.matched == Some(Request(1, "x", [0]))
    ensures After(engine, inputs).search == Some(found) && After(engine, inputs).used == {0, 1}
  {
    var there := Location(0, "old", Position(0, 0));
    var before := [Document("old", 0)];
    var start := Active("x", there, false, false, [], None, None, false);
    SmallSearch(engine, start, 1);
    found := start.(matches := [there], matched := Some(Request(1, "x", [0])), navigateOnResults := true);
    inputs := [(ReplaceDocuments(before), 0)];
    Extend(engine, [], ReplaceDocuments(before), 0);
    assert [] + inputs == inputs;
    var w := After(engine, inputs);
    assert w.documents == before && w.search == None && w.used == {0};
    Extend(engine, inputs, FindWord("x", there), 1);
    inputs := inputs + [(FindWord("x", there), 1)];
  }

  /** Documents replaced by others with the same texts, and a refresh: the search stays as it is. */
  lemma {:induction false} RenameThenRefresh(engine: Engine, inputs: seq<(Input, nat)>, documents: seq<Document>,
        id: nat)
    returns (more: seq<(Input, nat)>)
    requires Run(engine, inputs)
    requires var w := After(engine, inputs);
      && w.search.Some? && w.search.value.query != "" && IsCurrent(w.search.value, Texts(documents))
      && id !in w.used && id + 1 !in w.used
    ensures Run(engine, more) && more == inputs + [(ReplaceDocuments(documents), id), (Refresh, id + 1)]
    ensures
      && After(engine, more).search == After(engine, inputs).search
      && After(engine, more).documents == documents
  {
    var w := After(engine, inputs);
    Extend(engine, inputs, ReplaceDocuments(documents), id);
    var replaced := Next(engine, w, ReplaceDocuments(documents), id);
    assert replaced.search == w.search && replaced.documents == documents && replaced.used == w.used + {id};
    more := inputs + [(ReplaceDocuments(documents), id)];
    Extend(engine, more, Refresh, id + 1);
    more := more + [(Refresh, id + 1)];
  }

  /** A renamed document whose text is the same allocation keeps its old path in the matches. */
  lemma {:induction false} RenamedDocumentKeepsItsPath(engine: Engine) returns (inputs: seq<(Input, nat)>)
    requires engine.size(0) == 0 && engine.find("x", [0]) == [Match(0, Position(0, 0))]
    ensures Run(engine, inputs) && inputs != [] && inputs[|inputs| - 1].0 == Refresh
    ensures var w := After(engine, inputs);
      && w.documents == [Document("new", 0)]
      && w.search.Some? && w.search.value.query == "x" && w.search.value.pending == None
      && w.search.value.matches == [Location(0, "old", Position(0, 0))]
  {
    var before, found := FindOnce(engine);
    assert Texts([Document("new", 0)]) == [0];
    inputs := RenameThenRefresh(engine, before, [Document("new", 0)], 2);
  }
}
