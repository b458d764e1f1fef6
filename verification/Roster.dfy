/**
 `crates/hc-client/src/events.rs`: the agents' arrivals and departures, told from the events of the
 terminals.

 An event's data is what reading it as each kind of data gives, when it can be read so.
 */
module Roster {
  import opened Wrappers

  datatype AgentStatus = Idle | Working | Blocked | Done | Unknown

  /** What a program reports: its state and its name. */
  datatype Status = Status(state: string, app: Option<string>)

  datatype Place = Place(workspace: string, tab: string)

  datatype Terminal = Terminal(address: string, labels: map<string, string>, status: Option<Status>)

  datatype LabelsChange = LabelsChange(labels: map<string, string>, record: Option<Terminal>)

  datatype Data = Data(terminal: Option<Terminal>, status: Option<Option<Status>>, labels: Option<LabelsChange>)

  datatype Event = Event(kind: string, terminal: Option<string>, data: Data)

  datatype Failure = MalformedData

  /** An agent that arrives, or leaves when `released`. */
  datatype AgentDetected = AgentDetected(
    pane: string, workspace: string, agent: Option<string>, released: bool, finalStatus: Option<AgentStatus>)

  /** What is known of a terminal. */
  datatype Known = Known(place: Option<Place>, status: Option<Status>)

  const SPACE_LABEL := "herdr.space"
  const TAB_LABEL := "herdr.tab"

  const NOTHING_KNOWN := Known(None, None)

  function PlaceOf(labels: map<string, string>): Option<Place> {
    if SPACE_LABEL in labels && TAB_LABEL in labels then Some(Place(labels[SPACE_LABEL], labels[TAB_LABEL]))
    else None
  }

  function AgentStatusOf(status: Status): AgentStatus {
    if status.state == "idle" then Idle
    else if status.state == "working" then Working
    else if status.state == "blocked" then Blocked
    else if status.state == "done" then Done
    else Unknown
  }

  function AgentName(status: Status): Option<string> {
    if status.app == Some("claude-code") then Some("claude") else status.app
  }

  function KnownOf(terminal: Terminal): Known {
    Known(PlaceOf(terminal.labels), terminal.status)
  }

  predicate HoldsAgent(known: Known) {
    known.place.Some? && known.status.Some?
  }

  function KnownIn(terminals: map<string, Known>, terminal: string): Known {
    if terminal in terminals then terminals[terminal] else NOTHING_KNOWN
  }

  predicate EndsProgram(kind: string) {
    kind in {"finished", "removed", "lost"}
  }

  /** What tells of the program of a terminal, and is not ignored. */
  predicate IsFact(event: Event) {
    event.terminal.Some?
    && (event.kind in {"created", "restarted", "status", "labels"} || EndsProgram(event.kind))
  }

  predicate IsMalformed(event: Event) {
    || (event.kind in {"created", "restarted"} && event.data.terminal == None)
    || (event.kind == "status" && event.data.status == None)
    || (event.kind == "labels" && event.data.labels == None)
  }

  /** What is known of an event's terminal after it. */
  function KnownAfter(terminals: map<string, Known>, event: Event): Known
    requires IsFact(event) && !IsMalformed(event)
  {
    var terminal := event.terminal.value;
    if event.kind in {"created", "restarted"} then KnownOf(event.data.terminal.value)
    else if event.kind == "status" then KnownIn(terminals, terminal).(status := event.data.status.value)
    else if event.kind == "labels" then
      var change := event.data.labels.value;
      if change.record.Some? && terminal !in terminals then KnownOf(change.record.value)
      else KnownIn(terminals, terminal).(place := PlaceOf(change.labels))
    else NOTHING_KNOWN
  }

  function TerminalsAfter(terminals: map<string, Known>, event: Event): map<string, Known> {
    if !IsFact(event) || IsMalformed(event) then terminals
    else if event.kind == "removed" then terminals - {event.terminal.value}
    else terminals[event.terminal.value := KnownAfter(terminals, event)]
  }

  /** An agent as those told of it know it: its workspace and its name. */
  datatype Agent = Agent(workspace: string, name: Option<string>)

  /** The agents the terminals hold. */
  function Agents(terminals: map<string, Known>): map<string, Agent> {
    map terminal | terminal in terminals && HoldsAgent(terminals[terminal]) ::
      Agent(terminals[terminal].place.value.workspace, AgentName(terminals[terminal].status.value))
  }

  /** The agents once a listener that holds `agents` is told of one. */
  function Told(agents: map<string, Agent>, event: Option<AgentDetected>): map<string, Agent> {
    match event
    case None => agents
    case Some(detected) =>
      if detected.released then agents - {detected.pane}
      else agents[detected.pane := Agent(detected.workspace, detected.agent)]
  }

  /** What a terminal's agent going from `before` to `after` tells. */
  function Change(terminal: string, before: Known, after: Known): Option<AgentDetected> {
    if HoldsAgent(before) && !HoldsAgent(after) then
      Some(AgentDetected(terminal, before.place.value.workspace, AgentName(before.status.value), true,
                         Some(AgentStatusOf(before.status.value))))
    else if !HoldsAgent(after) then None
    else if HoldsAgent(before) && before.place == after.place
         && AgentName(before.status.value) == AgentName(after.status.value) then None
    else
      Some(AgentDetected(terminal, after.place.value.workspace, AgentName(after.status.value), false, None))
  }

  function ToldOf(terminals: map<string, Known>, event: Event): Option<AgentDetected> {
    if !IsFact(event) || IsMalformed(event) then None
    else
      Change(event.terminal.value, KnownIn(terminals, event.terminal.value), KnownAfter(terminals, event))
  }

  class Roster {
    var terminals: map<string, Known>

    constructor (snapshot: seq<Terminal>)
      ensures terminals == Snapshot(snapshot)
    {
      var known: map<string, Known> := map[];
      for i := 0 to |snapshot|
        invariant known == Snapshot(snapshot[..i])
      {
        known := known[snapshot[i].address := KnownOf(snapshot[i])];
        assert snapshot[..i + 1][..i] == snapshot[..i];
      }
      assert snapshot[..|snapshot|] == snapshot;
      terminals := known;
    }

    /**
     Takes an event's change; the arrival or departure it tells takes a listener that held the agents
     before to those held after.
     */
    method Observe(event: Event) returns (r: Result<Option<AgentDetected>, Failure>)
      modifies this
      ensures r.Err? <==> IsFact(event) && IsMalformed(event)
      ensures terminals == TerminalsAfter(old(terminals), event)
      ensures r.Ok? ==> r.value == ToldOf(old(terminals), event)
      ensures Agents(terminals) == Told(Agents(old(terminals)), if r.Ok? then r.value else None)
    {
      ToldIsHeld(terminals, event);
      if event.terminal == None {
        return Ok(None);
      }
      var terminal := event.terminal.value;
      var after;
      if event.kind in {"created", "restarted"} {
        if event.data.terminal == None {
          return Err(MalformedData);
        }
        after := KnownOf(event.data.terminal.value);
      } else if event.kind == "status" {
        if event.data.status == None {
          return Err(MalformedData);
        }
        after := KnownIn(terminals, terminal).(status := event.data.status.value);
      } else if event.kind == "labels" {
        if event.data.labels == None {
          return Err(MalformedData);
        }
        var change := event.data.labels.value;
        if change.record.Some? && terminal !in terminals {
          after := KnownOf(change.record.value);
        } else {
          after := KnownIn(terminals, terminal).(place := PlaceOf(change.labels));
        }
      } else if EndsProgram(event.kind) {
        after := NOTHING_KNOWN;
      } else {
        return Ok(None);
      }
      var before := KnownIn(terminals, terminal);
      terminals := terminals[terminal := after];
      if event.kind == "removed" {
        terminals := terminals - {terminal};
        assert terminals == old(terminals) - {terminal};
      }
      return Ok(Change(terminal, before, after));
    }
  }

  function Snapshot(snapshot: seq<Terminal>): map<string, Known> {
    if snapshot == [] then map[]
    else
      var last := snapshot[|snapshot| - 1];
      Snapshot(snapshot[..|snapshot| - 1])[last.address := KnownOf(last)]
  }

  /** One event: what is told takes the agents held before to those held after. */
  lemma {:induction false} ToldIsHeld(terminals: map<string, Known>, event: Event)
    ensures Agents(TerminalsAfter(terminals, event)) == Told(Agents(terminals), ToldOf(terminals, event))
  {
  }

  /** The status that a program's state tells. */
  ghost predicate IsStatusOf(state: string, status: AgentStatus) {
    match status
    case Idle => state == "idle"
    case Working => state == "working"
    case Blocked => state == "blocked"
    case Done => state == "done"
    case Unknown => state !in {"idle", "working", "blocked", "done"}
  }

  /** The name of an agent: that of its program, but for Claude Code's. */
  ghost predicate IsNameOf(app: Option<string>, name: Option<string>) {
    if app.Some? && app.value == "claude-code" then name.Some? && name.value == "claude" else name == app
  }

  /** A terminal holds an agent exactly when its tab and a status are known: in that workspace, by that name. */
  lemma {:induction false} AgentIs(terminals: map<string, Known>, terminal: string)
    ensures terminal in Agents(terminals) <==>
            && terminal in terminals && terminals[terminal].place.Some? && terminals[terminal].status.Some?
    ensures terminal in Agents(terminals) ==>
              && Agents(terminals)[terminal].workspace == terminals[terminal].place.value.workspace
              && IsNameOf(terminals[terminal].status.value.app, Agents(terminals)[terminal].name)
  {
  }

  /** A departure is told only of an agent held, as it was last told, with its last status. */
  lemma {:induction false} DepartureIsOfHeld(terminals: map<string, Known>, event: Event)
    requires ToldOf(terminals, event).Some? && ToldOf(terminals, event).value.released
    ensures var gone := ToldOf(terminals, event).value;
      && gone.pane in Agents(terminals)
      && Agents(terminals)[gone.pane] == Agent(gone.workspace, gone.agent)
      && gone.finalStatus.Some? && IsStatusOf(terminals[gone.pane].status.value.state, gone.finalStatus.value)
      && gone.pane !in Agents(TerminalsAfter(terminals, event))
  {
  }

  /** Whether a terminal is in the tab that both its labels name, or in none when one is missing. */
  ghost predicate IsPlaced(labels: map<string, string>, place: Option<Place>) {
    if "herdr.space" in labels && "herdr.tab" in labels
    then place == Some(Place(labels["herdr.space"], labels["herdr.tab"])) else place == None
  }

  ghost predicate Tells(event: Event, kind: string, terminal: string) {
    event.kind == kind && event.terminal == Some(terminal)
  }

  /**
   What is known of every terminal after every event: a terminal created or restarted is as its record says;
   a status and labels change what they tell of, and labels with a record tell of a terminal not known; the
   end of its program leaves nothing known; and nothing else, or with data that cannot be read, changes it.
   */
  lemma {:induction false} KnownIs(terminals: map<string, Known>, event: Event, terminal: string)
    ensures var before, after := KnownIn(terminals, terminal), KnownIn(TerminalsAfter(terminals, event), terminal);
      if Tells(event, "created", terminal) || Tells(event, "restarted", terminal) then
        if event.data.terminal == None then after == before
        else after.status == event.data.terminal.value.status && IsPlaced(event.data.terminal.value.labels, after.place)
      else if Tells(event, "status", terminal) then
        if event.data.status == None then after == before
        else after.status == event.data.status.value && after.place == before.place
      else if Tells(event, "labels", terminal) then
        if event.data.labels == None then after == before
        else if event.data.labels.value.record.Some? && terminal !in terminals then
          && after.status == event.data.labels.value.record.value.status
          && IsPlaced(event.data.labels.value.record.value.labels, after.place)
        else after.status == before.status && IsPlaced(event.data.labels.value.labels, after.place)
      else if Tells(event, "finished", terminal) || Tells(event, "lost", terminal) || Tells(event, "removed", terminal)
      then after == Known(None, None)
      else after == before
    ensures terminal in TerminalsAfter(terminals, event) <==>
            && !Tells(event, "removed", terminal)
            && (terminal in terminals
                || (event.terminal == Some(terminal) && IsFact(event) && !IsMalformed(event)))
  {
  }

  /** Whether an event moves an agent to another tab. */
  predicate MovesTab(terminals: map<string, Known>, event: Event) {
    var after := TerminalsAfter(terminals, event);
    event.terminal.Some?
    && HoldsAgent(KnownIn(terminals, event.terminal.value))
    && HoldsAgent(KnownIn(after, event.terminal.value))
    && KnownIn(terminals, event.terminal.value).place != KnownIn(after, event.terminal.value).place
  }

  /** An event tells nothing exactly when it changes none of the agents and moves none to another tab. */
  lemma {:induction false} SilenceIsNoChange(terminals: map<string, Known>, event: Event)
    ensures ToldOf(terminals, event) == None
       <==> Agents(TerminalsAfter(terminals, event)) == Agents(terminals) && !MovesTab(terminals, event)
  {
    var before, after := Agents(terminals), Agents(TerminalsAfter(terminals, event));
    ToldIsHeld(terminals, event);
    if ToldOf(terminals, event).Some? {
      var terminal := event.terminal.value;
      assert after == before ==> terminal in after && terminal in before && after[terminal] == before[terminal];
    }
  }

  // Runs.

  function Run(terminals: map<string, Known>, events: seq<Event>): map<string, Known> {
    if events == [] then terminals
    else TerminalsAfter(Run(terminals, events[..|events| - 1]), events[|events| - 1])
  }

  /** What the events tell, in order. */
  function Telling(terminals: map<string, Known>, events: seq<Event>): seq<AgentDetected> {
    if events == [] then []
    else
      var before := events[..|events| - 1];
      Telling(terminals, before)
      + match ToldOf(Run(terminals, before), events[|events| - 1])
        case None => []
        case Some(detected) => [detected]
  }

  function ToldAll(agents: map<string, Agent>, told: seq<AgentDetected>): map<string, Agent> {
    if told == [] then agents else Told(ToldAll(agents, told[..|told| - 1]), Some(told[|told| - 1]))
  }

  /**
   For every sequence of events, a listener that starts with the snapshot's agents and is told each
   arrival and departure holds exactly the roster's agents, with their workspaces and names.
   */
  lemma {:induction false} ListenersHoldTheAgents(terminals: map<string, Known>, events: seq<Event>)
    ensures ToldAll(Agents(terminals), Telling(terminals, events)) == Agents(Run(terminals, events))
    decreases |events|
  {
    if events != [] {
      var before := events[..|events| - 1];
      ListenersHoldTheAgents(terminals, before);
      ToldIsHeld(Run(terminals, before), events[|events| - 1]);
      var told := Telling(terminals, before);
      var last := ToldOf(Run(terminals, before), events[|events| - 1]);
      if last.Some? {
        assert (told + [last.value])[..|told|] == told;
      } else {
        assert told + [] == told;
      }
    }
  }

  /** The event that made the run tell its `i`-th arrival or departure. */
  lemma {:induction false} ToldBy(terminals: map<string, Known>, events: seq<Event>, i: nat) returns (n: nat)
    requires i < |Telling(terminals, events)|
    ensures n < |events| && Telling(terminals, events[..n]) == Telling(terminals, events)[..i]
    ensures ToldOf(Run(terminals, events[..n]), events[n]) == Some(Telling(terminals, events)[i])
    decreases |events|
  {
    hide ToldOf, Run;
    var before := events[..|events| - 1];
    var told := Telling(terminals, before);
    if i < |told| {
      n := ToldBy(terminals, before, i);
      assert before[..n] == events[..n];
      assert Telling(terminals, events)[..i] == told[..i];
    } else {
      n := |events| - 1;
      assert Telling(terminals, events)[..i] == told;
    }
  }

  /** Over every run, a departure is told only of an agent its listeners hold, as they hold it. */
  lemma {:induction false} DeparturesAreOfHeld(terminals: map<string, Known>, events: seq<Event>, i: nat)
    requires i < |Telling(terminals, events)| && Telling(terminals, events)[i].released
    ensures var told := Telling(terminals, events);
      var held := ToldAll(Agents(terminals), told[..i]);
      told[i].pane in held && held[told[i].pane] == Agent(told[i].workspace, told[i].agent)
  {
    var n := ToldBy(terminals, events, i);
    ListenersHoldTheAgents(terminals, events[..n]);
    DepartureIsOfHeld(Run(terminals, events[..n]), events[n]);
  }
}
