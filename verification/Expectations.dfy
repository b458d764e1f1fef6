/**
 `crates/agent-hooks/src/listener.rs`: what a reviewer expects of the agents whose hooks report to it,
 the prompts it blocks meanwhile, and what each expectation hears.

 Each operation holds the lock of the expectations, so a run is any sequence of operations.
 */
module Expectations {
  import opened Text
  import opened Wrappers

  datatype Named = Pane(pane: string) | Session(session: string)

  datatype HookedAgent = InPane(pane: string, reported: Option<string>) | Codex(thread: string)

  datatype Awaiting = Resume(session: string) | Prompt(expected: Option<string>, text: string)

  datatype Heard =
    | Resumed
    | Blocked(prompt: string)
    | Submitted
    | Joined(left: string)
    | Stopped

  datatype Awaited = Awaited(id: nat, awaiting: Awaiting, block: string, heard: Option<Heard>)

  datatype State = State(agents: map<Named, seq<Awaited>>, next: nat)

  function NameOf(agent: HookedAgent): Named {
    match agent
    case InPane(pane, _) => Pane(pane)
    case Codex(thread) => Session(thread)
  }

  /** Whether a prompt on `session` reached another session than the one expected, when both are known. */
  predicate OnAnotherSession(awaiting: Awaiting, session: Option<string>) {
    awaiting.Prompt? && awaiting.expected.Some? && session.Some? && session != awaiting.expected
  }

  predicate SameText(prompt: string, text: string) {
    Trim(prompt) == Trim(text)
  }

  predicate Blocks(awaited: Awaited, prompt: string, session: Option<string>) {
    match awaited.awaiting
    case Resume(_) => true
    case Prompt(_, text) =>
      awaited.heard == None && (OnAnotherSession(awaited.awaiting, session) || !SameText(prompt, text))
  }

  /** `s` without the first `part` in it, as `replacen` with nothing, once. */
  function WithoutFirst(s: string, part: string): string {
    match SplitOnce(s, part)
    case None => s
    case Some((before, after)) => before + after
  }

  /** What an expectation hears of a prompt, which the reviewer blocks if `blocked`. */
  function Hears(awaiting: Awaiting, prompt: string, session: Option<string>, blocked: bool): Option<Heard> {
    match awaiting
    case Resume(_) => if blocked then Some(Blocked(prompt)) else None
    case Prompt(_, text) =>
      if Find(prompt, Trim(text)) == None then None
      else if !blocked then Some(Submitted)
      else if OnAnotherSession(awaiting, session) || SameText(prompt, text) then Some(Stopped)
      else Some(Joined(Trim(WithoutFirst(prompt, Trim(text)))))
  }

  /** The first expectation, from `start` on, that blocks a prompt. */
  function FirstBlocking(armed: seq<Awaited>, prompt: string, session: Option<string>, start: nat): (r: Option<nat>)
    ensures r.Some? ==> start <= r.value < |armed| && Blocks(armed[r.value], prompt, session)
    ensures r.Some? ==> forall i :: start <= i < r.value ==> !Blocks(armed[i], prompt, session)
    ensures r == None ==> forall i :: start <= i < |armed| ==> !Blocks(armed[i], prompt, session)
    decreases |armed| - start
  {
    if start >= |armed| then None
    else if Blocks(armed[start], prompt, session) then Some(start)
    else FirstBlocking(armed, prompt, session, start + 1)
  }

  /** Why a prompt submitted to an agent is blocked, if it is. */
  function BlockOf(state: State, agent: Named, prompt: string, session: Option<string>): Option<string> {
    if agent !in state.agents then None
    else
      match FirstBlocking(state.agents[agent], prompt, session, 0)
      case None => None
      case Some(i) => Some(state.agents[agent][i].block)
  }

  function HearPrompt(awaited: Awaited, prompt: string, session: Option<string>, blocked: bool): Awaited {
    if awaited.heard == None then awaited.(heard := Hears(awaited.awaiting, prompt, session, blocked)) else awaited
  }

  function AllHearPrompt(armed: seq<Awaited>, prompt: string, session: Option<string>, blocked: bool):
    (r: seq<Awaited>)
    ensures |r| == |armed|
    ensures forall i :: 0 <= i < |armed| ==> r[i] == HearPrompt(armed[i], prompt, session, blocked)
  {
    if armed == [] then []
    else
      AllHearPrompt(armed[..|armed| - 1], prompt, session, blocked)
      + [HearPrompt(armed[|armed| - 1], prompt, session, blocked)]
  }

  function HearResume(awaited: Awaited, session: string): Awaited {
    if awaited.awaiting == Resume(session) && awaited.heard == None then awaited.(heard := Some(Resumed)) else awaited
  }

  function AllHearResume(armed: seq<Awaited>, session: string): (r: seq<Awaited>)
    ensures |r| == |armed| && forall i :: 0 <= i < |armed| ==> r[i] == HearResume(armed[i], session)
  {
    if armed == [] then []
    else AllHearResume(armed[..|armed| - 1], session) + [HearResume(armed[|armed| - 1], session)]
  }

  /** The expectations but the one with this number. */
  function Others(armed: seq<Awaited>, id: nat): (r: seq<Awaited>)
    ensures forall awaited :: awaited in r <==> awaited in armed && awaited.id != id
  {
    if armed == [] then []
    else
      Others(armed[..|armed| - 1], id)
      + if armed[|armed| - 1].id != id then [armed[|armed| - 1]] else []
  }

  function ArmedOf(state: State, agent: Named): seq<Awaited> {
    if agent in state.agents then state.agents[agent] else []
  }

  // The operations.

  function AfterExpect(state: State, agent: Named, awaiting: Awaiting, block: string): State {
    var awaited := Awaited(state.next, awaiting, block, None);
    State(state.agents[agent := ArmedOf(state, agent) + [awaited]], state.next + 1)
  }

  function AfterSubmitted(state: State, agent: Named, prompt: string, session: Option<string>): State {
    if agent !in state.agents then state
    else
      var blocked := BlockOf(state, agent, prompt, session).Some?;
      state.(agents := state.agents[agent := AllHearPrompt(state.agents[agent], prompt, session, blocked)])
  }

  function AfterResumed(state: State, agent: Named, session: string): State {
    if agent !in state.agents then state
    else state.(agents := state.agents[agent := AllHearResume(state.agents[agent], session)])
  }

  function AfterDrop(state: State, agent: Named, id: nat): State {
    if agent !in state.agents then state
    else
      var others := Others(state.agents[agent], id);
      state.(agents := if others == [] then state.agents - {agent} else state.agents[agent := others])
  }

  class Expectations {
    var agents: map<Named, seq<Awaited>>
    var next: nat

    function Now(): State
      reads this
    {
      State(agents, next)
    }

    constructor ()
      ensures Now() == State(map[], 0)
    {
      agents, next := map[], 0;
    }

    method Expect(agent: HookedAgent, awaiting: Awaiting, block: string) returns (id: nat)
      modifies this
      ensures id == old(next) && Now() == AfterExpect(old(Now()), NameOf(agent), awaiting, block)
    {
      id := next;
      next := next + 1;
      var armed := ArmedOf(Now(), NameOf(agent));
      agents := agents[NameOf(agent) := armed + [Awaited(id, awaiting, block, None)]];
    }

    method ExpectResume(agent: HookedAgent, session: string, block: string) returns (id: nat)
      modifies this
      ensures id == old(next) && Now() == AfterExpect(old(Now()), NameOf(agent), Resume(session), block)
    {
      id := Expect(agent, Resume(session), block);
    }

    /** A pane's prompt is expected on the session Herdr reports; Codex's expectations are a session's already. */
    method ExpectPrompt(agent: HookedAgent, text: string, block: string) returns (id: nat)
      modifies this
      ensures id == old(next)
      ensures Now() == AfterExpect(old(Now()), NameOf(agent),
                                   Prompt(if agent.InPane? then agent.reported else None, text), block)
    {
      var session := if agent.InPane? then agent.reported else None;
      id := Expect(agent, Prompt(session, text), block);
    }

    /**
     A prompt submitted to an agent: why it is blocked, which is why the first expectation that blocks it
     does. `woken` says whether an expectation heard something.
     */
    method Submitted(agent: Named, prompt: string, session: Option<string>)
      returns (block: Option<string>, woken: bool)
      modifies this
      ensures block == BlockOf(old(Now()), agent, prompt, session)
      ensures Now() == AfterSubmitted(old(Now()), agent, prompt, session)
      ensures woken <==> Now() != old(Now())
    {
      if agent !in agents {
        return None, false;
      }
      var armed := agents[agent];
      var first := FirstBlocking(armed, prompt, session, 0);
      block := if first.Some? then Some(armed[first.value].block) else None;
      var after;
      after, woken := HearAll(armed, prompt, session, block.Some?);
      agents := agents[agent := after];
    }

    static method HearAll(armed: seq<Awaited>, prompt: string, session: Option<string>, blocked: bool)
      returns (after: seq<Awaited>, woken: bool)
      ensures after == AllHearPrompt(armed, prompt, session, blocked)
      ensures woken <==> after != armed
    {
      hide Hears, AllHearPrompt;
      woken := false;
      after := [];
      for i := 0 to |armed|
        invariant after == AllHearPrompt(armed[..i], prompt, session, blocked)
        invariant woken <==> after != armed[..i]
      {
        var awaited := armed[i];
        if awaited.heard == None {
          awaited := awaited.(heard := Hears(awaited.awaiting, prompt, session, blocked));
          woken := woken || awaited.heard.Some?;
        }
        OneMore(armed, i);
        AppendDiffers(after, armed[..i], awaited, armed[i]);
        after := after + [awaited];
      }
      assert armed[..|armed|] == armed;
    }

    method Resumed(agent: Named, session: string) returns (woken: bool)
      modifies this
      ensures Now() == AfterResumed(old(Now()), agent, session)
      ensures woken <==> Now() != old(Now())
    {
      woken := false;
      if agent !in agents {
        return;
      }
      var armed, after := agents[agent], [];
      after, woken := HearAllResume(armed, session);
      agents := agents[agent := after];
    }

    static method HearAllResume(armed: seq<Awaited>, session: string) returns (after: seq<Awaited>, woken: bool)
      ensures after == AllHearResume(armed, session)
      ensures woken <==> after != armed
    {
      hide AllHearResume;
      after, woken := [], false;
      for i := 0 to |armed|
        invariant after == AllHearResume(armed[..i], session)
        invariant woken <==> after != armed[..i]
      {
        var awaited := armed[i];
        if awaited.awaiting == Resume(session) && awaited.heard == None {
          awaited := awaited.(heard := Some(Heard.Resumed));
          woken := true;
        }
        OneMore(armed, i);
        AppendDiffers(after, armed[..i], awaited, armed[i]);
        after := after + [awaited];
      }
      assert armed[..|armed|] == armed;
    }

    method Drop(agent: Named, id: nat)
      modifies this
      ensures Now() == AfterDrop(old(Now()), agent, id)
    {
      if agent in agents {
        var others := Others(agents[agent], id);
        if others == [] {
          agents := agents - {agent};
        } else {
          agents := agents[agent := others];
        }
      }
    }
  }

  lemma OneMore(armed: seq<Awaited>, i: nat)
    requires i < |armed|
    ensures armed[..i + 1] == armed[..i] + [armed[i]] && armed[..i + 1][..i] == armed[..i]
  {
  }

  lemma AppendDiffers(after: seq<Awaited>, armed: seq<Awaited>, last: Awaited, awaited: Awaited)
    requires |after| == |armed|
    ensures after + [last] == armed + [awaited] <==> after == armed && last == awaited
  {
    if after + [last] == armed + [awaited] {
      assert after == (after + [last])[..|after|] && armed == (armed + [awaited])[..|armed|];
      assert last == (after + [last])[|after|] && awaited == (armed + [awaited])[|armed|];
    }
  }

  // What is blocked, and what is heard.

  /** A prompt is blocked exactly when an expectation still armed for its agent blocks it. */
  lemma {:induction false} BlockedByArmed(state: State, agent: Named, prompt: string, session: Option<string>)
    ensures BlockOf(state, agent, prompt, session).Some?
       <==> exists awaited :: awaited in ArmedOf(state, agent) && Blocks(awaited, prompt, session)
  {
    if agent in state.agents {
      var first := FirstBlocking(state.agents[agent], prompt, session, 0);
      if first.Some? {
        assert state.agents[agent][first.value] in ArmedOf(state, agent);
      }
    }
  }

  lemma TrimIsHeld(s: string)
    ensures Holds(s, Trim(s))
  {
    var blank := TrimStartSplit(s);
    assert OccursAt(s, Trim(s), |blank|);
  }

  /** When a prompt goes on, no expectation of its agent is left to hear: each hears it was submitted. */
  lemma {:induction false} GoesOnIsHeard(state: State, agent: Named, prompt: string, session: Option<string>, i: nat)
    requires BlockOf(state, agent, prompt, session) == None
    requires i < |ArmedOf(state, agent)| && ArmedOf(state, agent)[i].heard == None
    ensures ArmedOf(AfterSubmitted(state, agent, prompt, session), agent)[i].heard == Some(Submitted)
  {
    var awaited := ArmedOf(state, agent)[i];
    assert !Blocks(awaited, prompt, session);
    TrimIsHeld(prompt);
  }

  /** Whether both sessions are known and differ. */
  ghost predicate GoesElsewhere(awaiting: Awaiting, session: Option<string>) {
    awaiting.Prompt? && awaiting.expected.Some? && session.Some? && awaiting.expected.value != session.value
  }

  /** Whether the texts are the same but for white space around them. */
  ghost predicate IsAlone(prompt: string, text: string) {
    Trim(prompt) == Trim(text)
  }

  /**
   What an expected resume hears: that its session resumed; and of a prompt submitted meanwhile, which it
   blocks, that it was blocked, even when another expectation blocks it too.
   */
  lemma {:induction false} ResumeIsHeard(state: State, agent: Named, session: string, prompt: string,
                                         on: Option<string>, i: nat)
    requires i < |ArmedOf(state, agent)|
    requires ArmedOf(state, agent)[i].heard == None && ArmedOf(state, agent)[i].awaiting.Resume?
    ensures ArmedOf(AfterResumed(state, agent, session), agent)[i].heard ==
            if ArmedOf(state, agent)[i].awaiting.session == session then Some(Resumed) else None
    ensures ArmedOf(AfterSubmitted(state, agent, prompt, on), agent)[i].heard == Some(Blocked(prompt))
  {
    BlockedByArmed(state, agent, prompt, on);
    assert ArmedOf(state, agent)[i] in ArmedOf(state, agent);
  }

  /**
   What an expected prompt hears of a prompt: nothing when the prompt does not hold its text; it was stopped
   when it reached another session, even joined to more; it was joined when it is not alone; and when it is
   alone, it was submitted unless another expectation blocks it.
   */
  lemma {:induction false} PromptIsHeard(state: State, agent: Named, prompt: string, session: Option<string>, i: nat)
    requires i < |ArmedOf(state, agent)|
    requires ArmedOf(state, agent)[i].heard == None && ArmedOf(state, agent)[i].awaiting.Prompt?
    ensures var awaiting := ArmedOf(state, agent)[i].awaiting;
      var text, heard := Trim(awaiting.text), ArmedOf(AfterSubmitted(state, agent, prompt, session), agent)[i].heard;
      && (heard == None <==> !Holds(prompt, text))
      && (heard == Some(Stopped) <==>
            Holds(prompt, text)
            && (GoesElsewhere(awaiting, session)
                || (Trim(prompt) == text && BlockOf(state, agent, prompt, session).Some?)))
      && ((heard.Some? && heard.value.Joined?) <==>
            Holds(prompt, text) && !GoesElsewhere(awaiting, session) && Trim(prompt) != text)
      && (heard == Some(Submitted) <==> BlockOf(state, agent, prompt, session) == None)
  {
    var awaited := ArmedOf(state, agent)[i];
    TrimIsHeld(prompt);
    BlockedByArmed(state, agent, prompt, session);
    assert awaited in ArmedOf(state, agent);
  }

  lemma JoinedText()
    ensures Trim("yx") == "yx" && Trim("x") == "x" && Holds("yx", "x")
  {
    assert TrimStart("yx") == "yx" && TrimEnd("yx") == "yx";
    assert TrimStart("x") == "x" && TrimEnd("x") == "x";
    assert OccursAt("yx", "x", 1);
  }

  /** A prompt joined to more that reached another session is heard as stopped, not as joined. */
  lemma {:induction false} JoinedElsewhereIsStopped()
    ensures var state := AfterExpect(EMPTY, Pane("p"), Prompt(Some("a"), "x"), "busy");
      && Holds("yx", "x") && Trim("yx") != Trim("x")
      && ArmedOf(AfterSubmitted(state, Pane("p"), "yx", Some("b")), Pane("p"))
         == [Awaited(0, Prompt(Some("a"), "x"), "busy", Some(Stopped))]
  {
    hide Trim, Holds, BlockOf, Hears;
    var state := AfterExpect(EMPTY, Pane("p"), Prompt(Some("a"), "x"), "busy");
    JoinedText();
    assert ArmedOf(state, Pane("p")) == [Awaited(0, Prompt(Some("a"), "x"), "busy", None)];
    PromptIsHeard(state, Pane("p"), "yx", Some("b"), 0);
  }

  /** What made an expectation hear something. */
  ghost predicate Causes(state: State, step: Step, agent: Named, awaiting: Awaiting, heard: Heard) {
    match heard
    case Resumed => step.Resumes? && step.agent == agent && awaiting == Resume(step.on)
    case Blocked(prompt) => step.Submits? && step.agent == agent && awaiting.Resume? && step.prompt == prompt
    case Submitted =>
      && IsGiven(step, agent, awaiting)
      && IsAlone(step.prompt, awaiting.text)
      && !GoesElsewhere(awaiting, step.session)
      && BlockOf(state, agent, step.prompt, step.session) == None
    case Stopped =>
      && IsGiven(step, agent, awaiting)
      && (GoesElsewhere(awaiting, step.session) || IsAlone(step.prompt, awaiting.text))
      && BlockOf(state, agent, step.prompt, step.session).Some?
    case Joined(left) =>
      && IsGiven(step, agent, awaiting)
      && !GoesElsewhere(awaiting, step.session)
      && !IsAlone(step.prompt, awaiting.text)
      && BlockOf(state, agent, step.prompt, step.session).Some?
      && exists before, after :: IsFirstIn(step.prompt, before, Trim(awaiting.text), after)
           && left == Trim(before + after)
  }

  /** Whether a prompt that holds the text expected is submitted to the agent. */
  ghost predicate IsGiven(step: Step, agent: Named, awaiting: Awaiting) {
    step.Submits? && step.agent == agent && awaiting.Prompt? && Holds(step.prompt, Trim(awaiting.text))
  }

  /** Whether `s` is `before`, `part` where it first occurs, and `after`. */
  ghost predicate IsFirstIn(s: string, before: string, part: string, after: string) {
    s == before + part + after && forall i: nat :: i < |before| ==> !OccursAt(s, part, i)
  }

  // Runs.

  datatype Step =
    | Expects(agent: Named, awaiting: Awaiting, block: string)
    | Submits(agent: Named, prompt: string, session: Option<string>)
    | Resumes(agent: Named, on: string)
    | Drops(agent: Named, id: nat)

  function Take(state: State, step: Step): State {
    match step
    case Expects(agent, awaiting, block) => AfterExpect(state, agent, awaiting, block)
    case Submits(agent, prompt, session) => AfterSubmitted(state, agent, prompt, session)
    case Resumes(agent, session) => AfterResumed(state, agent, session)
    case Drops(agent, id) => AfterDrop(state, agent, id)
  }

  function Run(state: State, steps: seq<Step>): State {
    if steps == [] then state else Take(Run(state, steps[..|steps| - 1]), steps[|steps| - 1])
  }

  predicate IsArmed(state: State, agent: Named, awaited: Awaited) {
    awaited in ArmedOf(state, agent)
  }

  /** Each agent listed has expectations, and each expectation its own number. */
  ghost predicate Valid(state: State) {
    && (forall agent :: agent in state.agents ==> state.agents[agent] != [])
    && (forall agent, awaited :: IsArmed(state, agent, awaited) ==> awaited.id < state.next)
    && (forall agent, awaited, other, same ::
          IsArmed(state, agent, awaited) && IsArmed(state, other, same) && awaited.id == same.id ==>
            agent == other && awaited == same)
  }

  /** What a step makes of an expectation that stays armed. */
  function Becomes(state: State, step: Step, agent: Named, before: Awaited): Awaited {
    if step.Submits? && step.agent == agent then
      HearPrompt(before, step.prompt, step.session, BlockOf(state, agent, step.prompt, step.session).Some?)
    else if step.Resumes? && step.agent == agent then HearResume(before, step.on)
    else before
  }

  /**
   Where an expectation armed after a step comes from: the step armed it, or it was armed before and heard
   nothing since, or the step is what it heard.
   */
  ghost predicate ComesFrom(state: State, step: Step, agent: Named, awaited: Awaited, before: Awaited) {
    && IsArmed(state, agent, before) && before.id == awaited.id
    && before.awaiting == awaited.awaiting && before.block == awaited.block
    && awaited == Becomes(state, step, agent, before)
    && (before == awaited
        || (before.heard == None && awaited.heard.Some?
            && Causes(state, step, agent, awaited.awaiting, awaited.heard.value)))
  }

  lemma FirstIsFound(s: string, part: string) returns (before: string, after: string)
    ensures Find(s, part) == None <==> !Holds(s, part)
    ensures Find(s, part).Some? ==> IsFirstIn(s, before, part, after) && WithoutFirst(s, part) == before + after
  {
    before, after := "", "";
    if Find(s, part).Some? {
      var i := Find(s, part).value;
      before, after := s[..i], s[i + |part|..];
      assert OccursAt(s, part, i) && s == before + part + after;
    }
  }

  lemma HeardIsCaused(state: State, agent: Named, prompt: string, session: Option<string>, before: Awaited)
    requires IsArmed(state, agent, before) && before.heard == None
    requires var heard := Hears(before.awaiting, prompt, session, BlockOf(state, agent, prompt, session).Some?);
      heard.Some?
    ensures var heard := Hears(before.awaiting, prompt, session, BlockOf(state, agent, prompt, session).Some?);
      Causes(state, Submits(agent, prompt, session), agent, before.awaiting, heard.value)
  {
    BlockedByArmed(state, agent, prompt, session);
    hide BlockOf, Trim, Take, Find, WithoutFirst, Holds, IsFirstIn;
    if before.awaiting.Prompt? {
      assert BlockOf(state, agent, prompt, session) == None ==> !Blocks(before, prompt, session);
      var start, end := FirstIsFound(prompt, Trim(before.awaiting.text));
    }
  }

  lemma StepBack(state: State, step: Step, agent: Named, awaited: Awaited) returns (before: Awaited)
    requires IsArmed(Take(state, step), agent, awaited)
    requires step.Expects? ==> awaited.id != state.next
    ensures ComesFrom(state, step, agent, awaited, before)
  {
    before := awaited;
    if agent in state.agents && step.Submits? && step.agent == agent {
      var armed, after := state.agents[agent], ArmedOf(Take(state, step), agent);
      var i :| 0 <= i < |after| && after[i] == awaited;
      before := armed[i];
      if before != awaited {
        HeardIsCaused(state, agent, step.prompt, step.session, before);
      }
    } else if agent in state.agents && step.Resumes? && step.agent == agent {
      var armed, after := state.agents[agent], ArmedOf(Take(state, step), agent);
      var i :| 0 <= i < |after| && after[i] == awaited;
      before := armed[i];
    }
  }

  lemma TakeKeepsValid(state: State, step: Step)
    requires Valid(state)
    ensures Valid(Take(state, step))
  {
    var after := Take(state, step);
    forall agent, awaited | IsArmed(after, agent, awaited)
      ensures awaited.id < after.next
    {
      if !(step.Expects? && awaited.id == state.next) {
        var before := StepBack(state, step, agent, awaited);
      }
    }
    forall agent, awaited, other, same
      | IsArmed(after, agent, awaited) && IsArmed(after, other, same) && awaited.id == same.id
      ensures agent == other && awaited == same
    {
      if step.Expects? && awaited.id == state.next {
        OnlyNew(state, step, agent, awaited);
        OnlyNew(state, step, other, same);
      } else {
        var before := StepBack(state, step, agent, awaited);
        var earlier := StepBack(state, step, other, same);
      }
    }
  }

  lemma OnlyNew(state: State, step: Step, agent: Named, awaited: Awaited)
    requires Valid(state) && step.Expects? && IsArmed(Take(state, step), agent, awaited) && awaited.id == state.next
    ensures agent == step.agent && awaited == Awaited(state.next, step.awaiting, step.block, None)
  {
    assert !IsArmed(state, agent, awaited);
  }

  const EMPTY := State(map[], 0)

  lemma {:induction false} EveryRunIsValid(state: State, steps: seq<Step>)
    requires Valid(state)
    ensures Valid(Run(state, steps)) && state.next <= Run(state, steps).next
    decreases |steps|
  {
    if steps != [] {
      EveryRunIsValid(state, steps[..|steps| - 1]);
      TakeKeepsValid(Run(state, steps[..|steps| - 1]), steps[|steps| - 1]);
    }
  }

  /**
   Over every run, an expectation is of the same agent and waits for the same as when it was armed; and
   once it heard something, that never changes.
   */
  lemma {:induction false} HeardOnce(state: State, steps: seq<Step>, agent: Named, awaited: Awaited,
                                     other: Named, later: Awaited)
    requires Valid(state) && IsArmed(state, agent, awaited)
    requires IsArmed(Run(state, steps), other, later) && later.id == awaited.id
    ensures other == agent && later.awaiting == awaited.awaiting && later.block == awaited.block
    ensures awaited.heard.Some? ==> later == awaited
    decreases |steps|
  {
    hide Causes, Becomes;
    if steps != [] {
      var before := steps[..|steps| - 1];
      EveryRunIsValid(state, before);
      var was := StepBack(Run(state, before), steps[|steps| - 1], other, later);
      HeardOnce(state, before, agent, awaited, other, was);
    }
  }

  /** Over every run, each thing heard was caused by a step while the expectation had heard nothing. */
  lemma {:induction false} HeardHasCause(steps: seq<Step>, agent: Named, awaited: Awaited) returns (n: nat)
    requires IsArmed(Run(EMPTY, steps), agent, awaited) && awaited.heard.Some?
    ensures n < |steps| && IsArmed(Run(EMPTY, steps[..n]), agent, awaited.(heard := None))
    ensures Causes(Run(EMPTY, steps[..n]), steps[n], agent, awaited.awaiting, awaited.heard.value)
    decreases |steps|
  {
    hide Causes, Becomes;
    var before, last := steps[..|steps| - 1], steps[|steps| - 1];
    var state := Run(EMPTY, before);
    if last.Expects? && awaited.id == state.next {
      EveryRunIsValid(EMPTY, before);
      OnlyNew(state, last, agent, awaited);
      assert false;
    }
    var was := StepBack(state, last, agent, awaited);
    if was == awaited {
      n := HeardHasCause(before, agent, awaited);
      assert before[..n] == steps[..n];
    } else {
      n := |steps| - 1;
    }
  }

  lemma StartIsValid()
    ensures Valid(EMPTY)
  {
  }

  /** An expectation is armed exactly from when its agent's is expected until it is dropped. */
  ghost predicate IsExpected(steps: seq<Step>, n: nat, agent: Named, id: nat) {
    && n < |steps|
    && steps[n].Expects? && steps[n].agent == agent && Run(EMPTY, steps[..n]).next == id
    && forall k :: n < k < |steps| ==> steps[k] != Drops(agent, id)
  }

  lemma ArmedIsNotDropped(state: State, step: Step, agent: Named, awaited: Awaited)
    requires IsArmed(Take(state, step), agent, awaited)
    ensures step != Drops(agent, awaited.id)
  {
  }

  lemma ExpectedLonger(steps: seq<Step>, last: Step, n: nat, agent: Named, id: nat)
    requires IsExpected(steps, n, agent, id) && last != Drops(agent, id)
    ensures IsExpected(steps + [last], n, agent, id) && (steps + [last])[n] == steps[n]
  {
    hide Run;
    assert (steps + [last])[..n] == steps[..n];
  }

  lemma {:induction false} ArmedWasExpected(steps: seq<Step>, agent: Named, awaited: Awaited) returns (n: nat)
    requires IsArmed(Run(EMPTY, steps), agent, awaited)
    ensures IsExpected(steps, n, agent, awaited.id)
    ensures awaited.awaiting == steps[n].awaiting && awaited.block == steps[n].block
    decreases |steps|
  {
    hide Causes, Becomes, Take, Valid;
    var before, last := steps[..|steps| - 1], steps[|steps| - 1];
    var state := Run(EMPTY, before);
    StartIsValid();
    EveryRunIsValid(EMPTY, before);
    if last.Expects? && awaited.id == state.next {
      OnlyNew(state, last, agent, awaited);
      n := |steps| - 1;
    } else {
      var was := StepBack(state, last, agent, awaited);
      n := ArmedWasExpected(before, agent, was);
      ArmedIsNotDropped(state, last, agent, awaited);
      ExpectedLonger(before, last, n, agent, awaited.id);
      assert steps == before + [last];
    }
  }

  lemma {:induction false} ExpectedIsArmed(steps: seq<Step>, n: nat, agent: Named, id: nat) returns (awaited: Awaited)
    requires IsExpected(steps, n, agent, id)
    ensures IsArmed(Run(EMPTY, steps), agent, awaited) && awaited.id == id
    ensures awaited.awaiting == steps[n].awaiting && awaited.block == steps[n].block
    decreases |steps|
  {
    var before, last := steps[..|steps| - 1], steps[|steps| - 1];
    var state := Run(EMPTY, before);
    if n == |before| {
      awaited := Awaited(id, last.awaiting, last.block, None);
      assert steps[..n] == before;
      assert awaited in ArmedOf(Run(EMPTY, steps), agent);
    } else {
      assert before[..n] == steps[..n] && before[n] == steps[n];
      var was := ExpectedIsArmed(before, n, agent, id);
      awaited := Becomes(state, last, agent, was);
    }
  }

  ghost predicate HasHeard(steps: seq<Step>, agent: Named, id: nat) {
    exists awaited :: IsArmed(Run(EMPTY, steps), agent, awaited) && awaited.id == id && awaited.heard.Some?
  }

  /** Whether the expectation `id`, armed by the `n`-th step, blocks a prompt: one of a resume blocks each. */
  ghost predicate StillBlocks(steps: seq<Step>, n: nat, agent: Named, id: nat, prompt: string,
                              session: Option<string>)
    requires n < |steps| && steps[n].Expects?
  {
    match steps[n].awaiting
    case Resume(_) => true
    case Prompt(_, text) =>
      !HasHeard(steps, agent, id)
      && (GoesElsewhere(steps[n].awaiting, session) || !IsAlone(prompt, text))
  }

  /**
   After every run, a prompt is blocked exactly when an expectation of its agent, armed by some step and not
   dropped since, blocks it; and the reason is that of such an expectation.
   */
  lemma {:induction false} BlockedByExpected(steps: seq<Step>, agent: Named, prompt: string, session: Option<string>)
    ensures BlockOf(Run(EMPTY, steps), agent, prompt, session).Some?
       <==> exists n, id: nat :: IsExpected(steps, n, agent, id) && StillBlocks(steps, n, agent, id, prompt, session)
    ensures var block := BlockOf(Run(EMPTY, steps), agent, prompt, session);
      block.Some? ==>
        exists n: nat, id: nat ::
          IsExpected(steps, n, agent, id) && StillBlocks(steps, n, agent, id, prompt, session)
          && steps[n].block == block.value
  {
    var state := Run(EMPTY, steps);
    hide Run;
    StartIsValid();
    EveryRunIsValid(EMPTY, steps);
    BlockedByArmed(state, agent, prompt, session);
    if BlockOf(state, agent, prompt, session).Some? {
      var first := FirstBlocking(state.agents[agent], prompt, session, 0).value;
      var awaited := ArmedOf(state, agent)[first];
      assert IsArmed(state, agent, awaited);
      var n := ArmedWasExpected(steps, agent, awaited);
      assert StillBlocks(steps, n, agent, awaited.id, prompt, session);
    }
    if n, id: nat :| IsExpected(steps, n, agent, id) && StillBlocks(steps, n, agent, id, prompt, session) {
      var awaited := ExpectedIsArmed(steps, n, agent, id);
      assert Blocks(awaited, prompt, session);
    }
  }

  /** Dropping an expectation disarms it and no other, and it is never armed again. */
  lemma {:induction false} DropDisarms(state: State, steps: seq<Step>, agent: Named, awaited: Awaited)
    requires Valid(state) && IsArmed(state, agent, awaited)
    ensures var after := AfterDrop(state, agent, awaited.id);
      && (forall other, kept :: IsArmed(after, other, kept) <==> IsArmed(state, other, kept) && kept != awaited)
      && (forall other, later :: IsArmed(Run(after, steps), other, later) ==> later.id != awaited.id)
  {
    var after := AfterDrop(state, agent, awaited.id);
    forall other, kept
      ensures IsArmed(after, other, kept) <==> IsArmed(state, other, kept) && kept != awaited
    {
    }
    TakeKeepsValid(state, Drops(agent, awaited.id));
    forall other, later | IsArmed(Run(after, steps), other, later)
      ensures later.id != awaited.id
    {
      if later.id == awaited.id {
        GoneStaysGone(after, steps, awaited.id, other, later);
      }
    }
  }

  lemma {:induction false} GoneStaysGone(state: State, steps: seq<Step>, id: nat, other: Named, later: Awaited)
    requires Valid(state) && id < state.next && IsArmed(Run(state, steps), other, later) && later.id == id
    ensures exists agent, awaited :: IsArmed(state, agent, awaited) && awaited.id == id
    decreases |steps|
  {
    hide Causes, Becomes;
    if steps != [] {
      var before := steps[..|steps| - 1];
      EveryRunIsValid(state, before);
      var was := StepBack(Run(state, before), steps[|steps| - 1], other, later);
      GoneStaysGone(state, before, id, other, was);
    }
  }
}
