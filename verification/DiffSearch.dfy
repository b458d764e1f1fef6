/**
 `crates/diff-search/src/lib.rs`: the diff viewer's search.

 `Search` and `ActiveSearch` are the source's objects, each method proved against a function of
 the same name with a past participle, over `Active`, the value of an `ActiveSearch`.

 A document's shared text is its `Handle`: two texts are the same allocation exactly when their
 handles are equal. What a search of texts finds is a parameter, the `Engine`.
 */
module DiffSearch {
  import opened Wrappers

  type Handle = nat

  datatype Position = Position(row: nat, column: nat)

  datatype Location = Location(documentIndex: nat, path: string, position: Position)

  datatype Document = Document(path: string, text: Handle)

  datatype Match = Match(documentIndex: nat, position: Position)

  datatype Request = Request(id: nat, query: string, documents: seq<Handle>)

  datatype Results = Results(id: nat, matches: seq<Match>)

  /** The size of each text in bytes, and the matches of a query in some texts. */
  datatype Engine = Engine(size: Handle -> nat, find: (string, seq<Handle>) -> seq<Match>)

  datatype Direction = Forward | Backward

  datatype Edit = Type(character: char) | Backspace | Paste(text: string) | Accept | Cancel

  datatype Intent =
    | Jump(to: Location, remember: bool)
    | Ask(request: Request)
    | CancelRequest
    | Status(files: bool)

  // The order of locations.

  predicate StringLess(a: string, b: string) {
    b != "" && (a == "" || a[0] < b[0] || (a[0] == b[0] && StringLess(a[1..], b[1..])))
  }

  predicate PositionLess(a: Position, b: Position) {
    a.row < b.row || (a.row == b.row && a.column < b.column)
  }

  predicate Less(a: Location, b: Location) {
    || a.documentIndex < b.documentIndex
    || (a.documentIndex == b.documentIndex &&
        (StringLess(a.path, b.path) || (a.path == b.path && PositionLess(a.position, b.position))))
  }

  // What the search computes.

  function Texts(documents: seq<Document>): (r: seq<Handle>)
    ensures |r| == |documents| && forall i :: 0 <= i < |r| ==> r[i] == documents[i].text
  {
    seq(|documents|, i requires 0 <= i < |documents| => documents[i].text)
  }

  function TotalSize(size: Handle -> nat, texts: seq<Handle>): nat {
    if texts == [] then 0 else size(texts[0]) + TotalSize(size, texts[1..])
  }

  predicate IsLarge(engine: Engine, request: Request) {
    TotalSize(engine.size, request.documents) > 64 * 1024
  }

  /** The matches in the documents there are, with the paths of those documents. */
  function Located(matches: seq<Match>, documents: seq<Document>): seq<Location> {
    if matches == [] then []
    else
      (if matches[0].documentIndex < |documents|
       then [Location(matches[0].documentIndex, documents[matches[0].documentIndex].path, matches[0].position)]
       else [])
      + Located(matches[1..], documents)
  }

  datatype Active = Active(
    query: string,
    origin: Location,
    editing: bool,
    waitingForRepository: bool,
    matches: seq<Location>,
    pending: Option<Request>,
    matched: Option<Request>,
    navigateOnResults: bool)

  /** Whether the pending request, or else the one matched, is for this query and these texts. */
  predicate IsCurrent(s: Active, texts: seq<Handle>) {
    var request := if s.pending.Some? then s.pending else s.matched;
    request.Some? && request.value.query == s.query && request.value.documents == texts
  }

  function Refreshed(engine: Engine, s: Active, documents: seq<Document>, id: nat): (Active, Option<Intent>) {
    var texts := if s.query == "" then [] else Texts(documents);
    if IsCurrent(s, texts) then (s, None)
    else
      var cancel := if s.pending.Some? then Some(CancelRequest) else None;
      var cleared := s.(pending := None, matched := None, matches := []);
      if s.query == "" then (cleared, cancel)
      else
        var request := Request(id, s.query, texts);
        if IsLarge(engine, request) then
          (cleared.(navigateOnResults := s.editing || s.waitingForRepository, pending := Some(request)),
           Some(Ask(request)))
        else
          (cleared.(matches := Located(engine.find(s.query, texts), documents), matched := Some(request)), cancel)
  }

  function Accepted(s: Active, results: Results, documents: seq<Document>): Active {
    s.(matched := s.pending, pending := None, matches := Located(results.matches, documents))
  }

  function FirstGreater(matches: seq<Location>, reference: Location): Option<Location> {
    if matches == [] then None
    else if Less(reference, matches[0]) then Some(matches[0])
    else FirstGreater(matches[1..], reference)
  }

  function LastLess(matches: seq<Location>, reference: Location): Option<Location> {
    if matches == [] then None
    else if Less(matches[|matches| - 1], reference) then Some(matches[|matches| - 1])
    else LastLess(matches[..|matches| - 1], reference)
  }

  function FirstAfter(matches: seq<Location>, reference: Location): Option<Location> {
    var found := FirstGreater(matches, reference);
    if found.Some? || matches == [] then found else Some(matches[0])
  }

  function FirstBefore(matches: seq<Location>, reference: Location): Option<Location> {
    var found := LastLess(matches, reference);
    if found.Some? || matches == [] then found else Some(matches[|matches| - 1])
  }

  function Stepped(s: Active, direction: Direction, current: Location): Option<Intent> {
    var to := if direction.Forward? then FirstAfter(s.matches, current) else FirstBefore(s.matches, current);
    if to.Some? then Some(Jump(to.value, true)) else None
  }

  function JumpFromOrigin(s: Active): Option<Intent> {
    var to := if s.query == "" then Some(s.origin) else FirstAfter(s.matches, s.origin);
    if to.Some? then Some(Jump(to.value, false)) else None
  }

  function Few(intent: Option<Intent>): seq<Intent> {
    if intent.Some? then [intent.value] else []
  }

  function CancelPending(search: Option<Active>): seq<Intent> {
    if search.Some? && search.value.pending.Some? then [CancelRequest] else []
  }

  function Begun(engine: Engine, search: Option<Active>, query: string, editing: bool, origin: Location,
                 documents: seq<Document>, id: nat): (Active, seq<Intent>) {
    var (s, asked) := Refreshed(engine, Active(query, origin, editing, false, [], None, None, false), documents, id);
    var begun := s.(navigateOnResults := true);
    (begun,
     CancelPending(search) + Few(asked)
     + (if editing then [] else Few(Stepped(begun, Forward, origin))) + [Status(true)])
  }

  /** `text` on one line. */
  function OnOneLine(text: string): (r: string)
    ensures |r| == |text|
  {
    if text == "" then "" else [if text[0] == '\n' || text[0] == '\r' then ' ' else text[0]] + OnOneLine(text[1..])
  }

  function EditedQuery(query: string, edit: Edit): string {
    match edit
    case Type(character) => query + [character]
    case Backspace => if query == "" then "" else query[..|query| - 1]
    case Paste(text) => query + OnOneLine(text)
    case _ => query
  }

  function Edited(engine: Engine, search: Option<Active>, edit: Edit, documents: seq<Document>, id: nat):
    (Option<Active>, seq<Intent>)
  {
    if search == None || !search.value.editing then (search, [])
    else
      var s := search.value;
      match edit
      case Accept => (Some(s.(editing := false)), [Status(false)])
      case Cancel => (None, CancelPending(search) + [Jump(s.origin, false), Status(true)])
      case _ =>
        var (next, asked) := Refreshed(engine, s.(query := EditedQuery(s.query, edit)), documents, id);
        (Some(next), Few(asked) + Few(JumpFromOrigin(next)) + [Status(true)])
  }

  function RefreshedSearch(engine: Engine, search: Option<Active>, documents: seq<Document>, id: nat):
    (Option<Active>, seq<Intent>)
  {
    if search == None then (None, [])
    else var (next, asked) := Refreshed(engine, search.value, documents, id); (Some(next), Few(asked))
  }

  function Loaded(engine: Engine, search: Option<Active>, documents: seq<Document>, id: nat):
    (Option<Active>, seq<Intent>)
  {
    var (next, asked) := RefreshedSearch(engine, search, documents, id);
    (next,
     asked + if next.Some? && (next.value.editing || next.value.waitingForRepository)
             then Few(JumpFromOrigin(next.value)) else [])
  }

  function Resumed(engine: Engine, search: Option<Active>, documents: seq<Document>, id: nat):
    (Option<Active>, seq<Intent>)
  {
    if search.Some? && search.value.pending.Some? then (search, [Ask(search.value.pending.value)])
    else RefreshedSearch(engine, search, documents, id)
  }

  /** A step from the cursor's place, once the query is not edited any more. */
  function StepTaken(search: Option<Active>, direction: Direction, current: Option<Location>): seq<Intent> {
    (if search.Some? && !search.value.editing && current.Some?
     then Few(Stepped(search.value, direction, current.value)) else [])
    + [Status(true)]
  }

  predicate IsAwaited(search: Option<Active>, results: Results) {
    search.Some? && search.value.pending.Some? && search.value.pending.value.id == results.id
  }

  predicate IsFresh(s: Active, documents: seq<Document>)
    requires s.pending.Some?
  {
    s.pending.value.documents == Texts(documents)
  }

  function Completed(engine: Engine, search: Option<Active>, results: Results, documents: seq<Document>, id: nat):
    (Option<Active>, seq<Intent>)
  {
    if !IsAwaited(search, results) then (search, [])
    else
      var s := search.value;
      if IsFresh(s, documents) then
        var next := Accepted(s, results, documents);
        (Some(next), (if next.navigateOnResults then Few(JumpFromOrigin(next)) else []) + [Status(true)])
      else
        var (next, asked) := Refreshed(engine, s, documents, id);
        (Some(next.(navigateOnResults := s.navigateOnResults)), Few(asked))
  }

  function Retained(search: Option<Active>, results: Results, documents: seq<Document>): Option<Active> {
    if !IsAwaited(search, results) then search
    else if IsFresh(search.value, documents) then Some(Accepted(search.value, results, documents))
    else Some(search.value.(pending := None, matched := None))
  }

  // The objects.

  class ActiveSearch {
    var query: string
    var origin: Location
    var editing: bool
    var waitingForRepository: bool
    var matches: seq<Location>
    var pending: Option<Request>
    var matched: Option<Request>
    var navigateOnResults: bool

    constructor (query: string, editing: bool, origin: Location)
      ensures Now() == Active(query, origin, editing, false, [], None, None, false)
    {
      this.query, this.origin, this.editing := query, origin, editing;
      waitingForRepository, matches, pending, matched, navigateOnResults := false, [], None, None, false;
    }

    function Now(): Active
      reads this
    {
      Active(query, origin, editing, waitingForRepository, matches, pending, matched, navigateOnResults)
    }

    /** `id` is the identity a new request gets. */
    method Refresh(engine: Engine, documents: seq<Document>, id: nat) returns (intent: Option<Intent>)
      modifies this
      ensures (Now(), intent) == Refreshed(engine, old(Now()), documents, id)
    {
      var texts := if query == "" then [] else Texts(documents);
      if IsCurrent(Now(), texts) {
        return None;
      }
      var cancel := if pending.Some? then Some(CancelRequest) else None;
      pending := None;
      matched := None;
      matches := [];
      if query == "" {
        return cancel;
      }
      var request := Request(id, query, texts);
      if IsLarge(engine, request) {
        navigateOnResults := editing || waitingForRepository;
        pending := Some(request);
        intent := Some(Ask(request));
      } else {
        ReplaceMatches(engine.find(query, texts), documents);
        matched := Some(request);
        intent := cancel;
      }
    }

    method Accept(results: Results, documents: seq<Document>)
      modifies this
      ensures Now() == Accepted(old(Now()), results, documents)
    {
      matched := pending;
      pending := None;
      ReplaceMatches(results.matches, documents);
    }

    method ReplaceMatches(found: seq<Match>, documents: seq<Document>)
      modifies this`matches
      ensures matches == Located(found, documents)
    {
      var located := [];
      for index := 0 to |found|
        invariant located + Located(found[index..], documents) == Located(found, documents)
      {
        var next := found[index];
        assert found[index..][1..] == found[index + 1..];
        if next.documentIndex < |documents| {
          located := located + [Location(next.documentIndex, documents[next.documentIndex].path, next.position)];
        }
      }
      matches := located;
    }
  }

  class Search {
    const engine: Engine
    var active: ActiveSearch?

    constructor (engine: Engine)
      ensures this.engine == engine && Now() == None
    {
      this.engine := engine;
      active := null;
    }

    function Now(): Option<Active>
      reads this, active
    {
      if active == null then None else Some(active.Now())
    }

    method Begin(query: string, editing: bool, origin: Location, documents: seq<Document>, id: nat)
      returns (intents: seq<Intent>)
      modifies this
      ensures active != null && fresh(active)
      ensures var (next, all) := Begun(engine, old(Now()), query, editing, origin, documents, id);
        Now() == Some(next) && intents == all
    {
      intents := CancelPending(Now());
      var search := new ActiveSearch(query, editing, origin);
      var intent := search.Refresh(engine, documents, id);
      intents := intents + Few(intent);
      search.navigateOnResults := true;
      if !editing {
        intents := intents + Few(Stepped(search.Now(), Forward, search.origin));
      }
      active := search;
      intents := intents + [Status(true)];
    }

    method Edit(edit: Edit, documents: seq<Document>, id: nat) returns (intents: seq<Intent>)
      modifies this, active
      ensures (Now(), intents) == Edited(engine, old(Now()), edit, documents, id)
      ensures active == old(active) || active == null
    {
      if active == null || !active.editing {
        return [];
      }
      match edit {
        case Accept =>
          active.editing := false;
          return [Status(false)];
        case Cancel =>
          intents := CancelPending(Now()) + [Jump(active.origin, false), Status(true)];
          active := null;
          return;
        case _ =>
          active.query := EditedQuery(active.query, edit);
      }
      var intent := active.Refresh(engine, documents, id);
      intents := Few(intent) + Few(JumpFromOrigin(active.Now())) + [Status(true)];
    }

    method Step(direction: Direction, current: Option<Location>) returns (intents: seq<Intent>)
      ensures intents == StepTaken(Now(), direction, current)
    {
      intents := [];
      if active != null && !active.editing && current.Some? {
        intents := Few(Stepped(active.Now(), direction, current.value));
      }
      intents := intents + [Status(true)];
    }

    method Clear() returns (intents: seq<Intent>)
      modifies this
      ensures Now() == None && intents == CancelPending(old(Now())) + [Status(true)]
    {
      intents := CancelPending(Now()) + [Status(true)];
      active := null;
    }

    method Refresh(documents: seq<Document>, id: nat) returns (intents: seq<Intent>)
      modifies active
      ensures (Now(), intents) == RefreshedSearch(engine, old(Now()), documents, id)
    {
      if active == null {
        return [];
      }
      var intent := active.Refresh(engine, documents, id);
      intents := Few(intent);
    }

    method DocumentsLoaded(documents: seq<Document>, id: nat) returns (intents: seq<Intent>)
      modifies active
      ensures (Now(), intents) == Loaded(engine, old(Now()), documents, id)
    {
      intents := Refresh(documents, id);
      assert intents + [] == intents;
      if active != null && (active.editing || active.waitingForRepository) {
        intents := intents + Few(JumpFromOrigin(active.Now()));
      }
    }

    method Resume(documents: seq<Document>, id: nat) returns (intents: seq<Intent>)
      modifies active
      ensures (Now(), intents) == Resumed(engine, old(Now()), documents, id)
    {
      if active != null && active.pending.Some? {
        return [Ask(active.pending.value)];
      }
      intents := Refresh(documents, id);
    }

    method Complete(results: Results, documents: seq<Document>, id: nat) returns (intents: seq<Intent>)
      modifies active
      ensures (Now(), intents) == Completed(engine, old(Now()), results, documents, id)
    {
      if !IsAwaited(Now(), results) {
        return [];
      }
      if !IsFresh(active.Now(), documents) {
        var navigate := active.navigateOnResults;
        var intent := active.Refresh(engine, documents, id);
        active.navigateOnResults := navigate;
        return Few(intent);
      }
      active.Accept(results, documents);
      intents := (if active.navigateOnResults then Few(JumpFromOrigin(active.Now())) else []) + [Status(true)];
    }

    method Retain(results: Results, documents: seq<Document>)
      modifies active
      ensures Now() == Retained(old(Now()), results, documents)
    {
      if !IsAwaited(Now(), results) {
        return;
      }
      if IsFresh(active.Now(), documents) {
        active.Accept(results, documents);
      } else {
        active.pending := None;
        active.matched := None;
      }
    }

    method SetWaiting(waiting: bool)
      modifies active
      ensures Now() == if old(Now()) == None then None else Some(old(Now()).value.(waitingForRepository := waiting))
    {
      if active != null {
        active.waitingForRepository := waiting;
      }
    }
  }
}
