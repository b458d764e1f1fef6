/**
 What the event bus makes of the handlers it runs. Here a bus is no more than the states of its
 components, those of their matchers and the events pending, and all that happens to them is what the
 handlers and matchers return (`crates/component-core/src/lib.rs`).
 */
module EventBusHandlers {
  import opened Common
  import opened Wrappers
  import opened EventBus
  import opened EventBusRuns

  function StatesOf<S, M>(components: map<nat, Component<S, M>>): map<nat, S> {
    map c | c in components :: components[c].state
  }

  function MatchingsOf<S, M>(components: map<nat, Component<S, M>>): map<nat, M> {
    map c | c in components :: components[c].matching
  }

  /** The states after handlers ran, the events they published and their actions, in turn. */
  datatype Handling<S, E, A> = Handling(states: map<nat, S>, published: seq<Event<E>>, actions: seq<seq<A>>)

  /** Each handler of an event gets the state its component is in, and leaves it in another. */
  function Handled<S, M, E, A>(states: map<nat, S>, list: seq<Subscription<S, M, E, A>>, event: Event<E>):
    (r: Handling<S, E, A>)
    requires forall s :: s in list ==> s.component in states
    ensures r.states.Keys == states.Keys
    decreases |list|
  {
    if list == [] then Handling(states, [], [])
    else
      var s := list[|list| - 1];
      assert s in list && forall t :: t in list[..|list| - 1] ==> t in list;
      var before := Handled(states, list[..|list| - 1], event);
      var (state, published, actions) := s.handler(before.states[s.component], event);
      Handling(before.states[s.component := state], before.published + published, before.actions + [actions])
  }

  /** What input does: as its handlers, once their matchers resolved it, and to the states of the matchers. */
  datatype Answering<S, M, E, A> = Answering(matchings: map<nat, M>, handling: Handling<S, E, A>, awaiting: bool)

  function AnsweredNext<S, M, E, A>(before: Answering<S, M, E, A>, s: Subscription<S, M, E, A>, event: Event<E>):
    (r: Answering<S, M, E, A>)
    requires s.component in before.handling.states && s.component in before.matchings
    ensures r.matchings.Keys == before.matchings.Keys && r.handling.states.Keys == before.handling.states.Keys
  {
    var h := before.handling;
    var (matching, resolution) := s.matcher(before.matchings[s.component], h.states[s.component], event);
    var matched := before.(matchings := before.matchings[s.component := matching]);
    match resolution
    case Unmatched => matched
    case MoreInput => matched.(awaiting := true)
    case Resolved(input) =>
      var (state, published, actions) := s.handler(h.states[s.component], input);
      matched.(handling := Handling(h.states[s.component := state], h.published + published, h.actions + [actions]))
  }

  function Answered<S, M, E, A>(matchings: map<nat, M>, states: map<nat, S>, list: seq<Subscription<S, M, E, A>>,
                                event: Event<E>): (r: Answering<S, M, E, A>)
    requires forall s :: s in list ==> s.component in states && s.component in matchings
    ensures r.matchings.Keys == matchings.Keys && r.handling.states.Keys == states.Keys
    decreases |list|
  {
    if list == [] then Answering(matchings, Handling(states, [], []), false)
    else
      var last := list[|list| - 1];
      assert last in list && forall s :: s in list[..|list| - 1] ==> s in list;
      AnsweredNext(Answered(matchings, states, list[..|list| - 1], event), last, event)
  }

  ghost predicate AllBound<S(!new), M(!new), E(!new), A(!new)>(bus: Bus<S, M, E, A>,
      list: seq<Subscription<S, M, E, A>>, event: nat)
  {
    forall s :: s in list ==> Bound(bus, s, event)
  }

  lemma InvokeAnswers<S(!new), M(!new), E(!new), A(!new)>(bus: Bus<S, M, E, A>, s: Subscription<S, M, E, A>,
      event: Event<E>)
    requires Bound(bus, s, event.kind)
    ensures var (next, r) := Invoke(bus, s, event);
      var states, matchings := StatesOf(bus.components), MatchingsOf(bus.components);
      var (matching, resolution) := s.matcher(matchings[s.component], states[s.component], event);
      && SameMounts(bus, next) && MatchingsOf(next.components) == matchings[s.component := matching]
      && match resolution
         case Unmatched => r == Ok(NoMatch) && StatesOf(next.components) == states && next.pending == bus.pending
         case MoreInput =>
           r == Ok(AwaitingMoreInput) && StatesOf(next.components) == states && next.pending == bus.pending
         case Resolved(input) =>
           var (state, published, actions) := s.handler(states[s.component], input);
           && r == Ok(Matched(actions)) && StatesOf(next.components) == states[s.component := state]
           && next.pending == bus.pending + published
  {
  }

  /** What was run is what the handlers and matchers answered; what they publish waits behind what was pending. */
  ghost predicate RanAs<S(!new), M(!new), E(!new), A(!new)>(bus: Bus<S, M, E, A>, ran: Ran<S, M, E, A>,
      answered: Answering<S, M, E, A>)
  {
    && ran.error == None && ran.awaiting == answered.awaiting && ran.results == answered.handling.actions
    && ran.bus.pending == bus.pending + answered.handling.published && SameMounts(bus, ran.bus)
    && StatesOf(ran.bus.components) == answered.handling.states
    && MatchingsOf(ran.bus.components) == answered.matchings
  }

  lemma RunOneAnswers<S(!new), M(!new), E(!new), A(!new)>(bus: Bus<S, M, E, A>, ran: Ran<S, M, E, A>,
      answered: Answering<S, M, E, A>, s: Subscription<S, M, E, A>, event: Event<E>)
    requires RanAs(bus, ran, answered) && Bound(ran.bus, s, event.kind)
    ensures RanAs(bus, RunOne(ran, s, event), AnsweredNext(answered, s, event))
  {
    hide Invoke;
    assert s.component in StatesOf(ran.bus.components) && s.component in MatchingsOf(ran.bus.components);
    InvokeAnswers(ran.bus, s, event);
  }

  lemma {:induction false} RunAnswers<S(!new), M(!new), E(!new), A(!new)>(bus: Bus<S, M, E, A>,
      list: seq<Subscription<S, M, E, A>>, event: Event<E>)
    requires AllBound(bus, list, event.kind)
    ensures RanAs(bus, Run(bus, list, event),
                  Answered(MatchingsOf(bus.components), StatesOf(bus.components), list, event))
    decreases |list|
  {
    if list != [] {
      var before, last := list[..|list| - 1], list[|list| - 1];
      assert last in list && forall s :: s in before ==> s in list;
      RunAnswers(bus, before, event);
      var ran := Run(bus, before, event);
      assert Bound(bus, last, event.kind) && Bound(ran.bus, last, event.kind);
      hide RunOne, AnsweredNext;
      RunOneAnswers(
        bus, ran, Answered(MatchingsOf(bus.components), StatesOf(bus.components), before, event), last, event);
    }
  }

  ghost predicate AreOnEvent<S, M, E, A>(list: seq<Subscription<S, M, E, A>>) {
    forall s :: s in list ==> s.kind == OnEvent
  }

  lemma {:induction false} EventsAreHandled<S(!new), M(!new), E(!new), A(!new)>(bus: Bus<S, M, E, A>,
      list: seq<Subscription<S, M, E, A>>, event: Event<E>)
    requires AllBound(bus, list, event.kind) && AreOnEvent(list)
    ensures var matchings, states := MatchingsOf(bus.components), StatesOf(bus.components);
      Answered(matchings, states, list, event) == Answering(matchings, Handled(states, list, event), false)
    decreases |list|
  {
    if list != [] {
      var before, last := list[..|list| - 1], list[|list| - 1];
      assert last in list && forall s :: s in before ==> s in list;
      EventsAreHandled(bus, before, event);
      assert Bound(bus, last, event.kind);
    }
  }

  /** The handlers of an event, run: what they publish waits behind what was pending, and no matcher changes. */
  lemma {:induction false} RunHandles<S(!new), M(!new), E(!new), A(!new)>(bus: Bus<S, M, E, A>,
      list: seq<Subscription<S, M, E, A>>, event: Event<E>)
    requires AllBound(bus, list, event.kind) && AreOnEvent(list)
    ensures var ran, handled := Run(bus, list, event), Handled(StatesOf(bus.components), list, event);
      && ran.error == None && !ran.awaiting && ran.results == handled.actions
      && ran.bus.pending == bus.pending + handled.published && SameMounts(bus, ran.bus)
      && StatesOf(ran.bus.components) == handled.states
      && MatchingsOf(ran.bus.components) == MatchingsOf(bus.components)
  {
    RunAnswers(bus, list, event);
    EventsAreHandled(bus, list, event);
  }

  // Cascades.

  ghost predicate Held<S, M, E, A>(subscriptions: map<nat, seq<Subscription<S, M, E, A>>>, states: map<nat, S>) {
    forall event: nat, s :: event in subscriptions && s in subscriptions[event] ==> s.component in states
  }

  lemma MatchingIsHeld<S, M, E, A>(subscriptions: map<nat, seq<Subscription<S, M, E, A>>>, states: map<nat, S>,
      event: nat, wanted: Subscription<S, M, E, A> -> bool)
    requires Held(subscriptions, states)
    ensures forall s :: s in Matching(ListOf(subscriptions, event), wanted) ==> s.component in states
  {
    MatchingIs(ListOf(subscriptions, event), wanted);
  }

  /** A cascade: the states it leaves, and in turn the events delivered, those published and the actions. */
  datatype Wave<S, E, A> = Wave(
    states: map<nat, S>, pending: seq<Event<E>>, delivered: seq<Event<E>>, published: seq<Event<E>>,
    results: seq<seq<A>>)

  /** The first `n` events handled in turn, what handlers publish behind those that wait. */
  ghost function Spread<S, M, E, A>(
    subscriptions: map<nat, seq<Subscription<S, M, E, A>>>, states: map<nat, S>, pending: seq<Event<E>>, n: nat):
    Wave<S, E, A>
    requires Held(subscriptions, states)
    decreases n
  {
    if n == 0 || pending == [] then Wave(states, pending, [], [], [])
    else
      var event := pending[0];
      MatchingIsHeld(subscriptions, states, event.kind, IsOnEvent);
      var handled := Handled(states, EventHandlers(subscriptions, event), event);
      var more := Spread(subscriptions, handled.states, pending[1..] + handled.published, n - 1);
      Wave(more.states, more.pending, [event] + more.delivered, handled.published + more.published,
           handled.actions + more.results)
  }

  lemma GoodIsHeld<S(!new), M(!new), E(!new), A(!new)>(bus: Bus<S, M, E, A>)
    requires Good(bus)
    ensures Held(bus.subscriptions, StatesOf(bus.components))
  {
    forall event: nat, s | event in bus.subscriptions && s in bus.subscriptions[event]
      ensures s.component in StatesOf(bus.components)
    {
      assert Bound(bus, s, event);
    }
  }

  lemma DeliverOneHandles<S(!new), M(!new), E(!new), A(!new)>(bus: Bus<S, M, E, A>)
    requires Good(bus) && bus.pending != []
    ensures var event, ran := bus.pending[0], DeliverOne(bus);
      && (forall s :: s in EventHandlers(bus.subscriptions, event) ==> s.component in StatesOf(bus.components))
      && var handled := Handled(StatesOf(bus.components), EventHandlers(bus.subscriptions, event), event);
         && Good(ran.bus) && SameMounts(bus, ran.bus) && ran.error == None && ran.results == handled.actions
         && ran.bus.pending == bus.pending[1..] + handled.published
         && StatesOf(ran.bus.components) == handled.states
         && MatchingsOf(ran.bus.components) == MatchingsOf(bus.components)
  {
    var event := bus.pending[0];
    var taken := bus.(pending := bus.pending[1..]);
    var list := EventHandlers(bus.subscriptions, event);
    DeliverOneKeeps(bus);
    HandlersAreSubscribers(bus, event);
    forall s | s in list
      ensures Bound(taken, s, event.kind)
    {
      assert Bound(bus, s, event.kind);
    }
    RunHandles(taken, list, event);
  }

  /** A cascade of the bus is the spread of its pending events. */
  lemma {:induction false} CascadeSpreads<S(!new), M(!new), E(!new), A(!new)>(bus: Bus<S, M, E, A>, n: nat)
    requires Good(bus)
    ensures Held(bus.subscriptions, StatesOf(bus.components))
    ensures var (end, results) := Cascade(bus, n);
      var wave := Spread(bus.subscriptions, StatesOf(bus.components), bus.pending, n);
      && results == wave.results && end.pending == wave.pending && SameMounts(bus, end)
      && StatesOf(end.components) == wave.states && MatchingsOf(end.components) == MatchingsOf(bus.components)
    decreases n
  {
    GoodIsHeld(bus);
    if n > 0 && bus.pending != [] {
      hide DeliverOne, Good, StatesOf, MatchingsOf;
      DeliverOneHandles(bus);
      CascadeSpreads(DeliverOne(bus).bus, n - 1);
    }
  }

  /**
   No event is lost, doubled or overtaken: what was pending and then what handlers published is what
   was delivered and then what is still pending.
   */
  lemma {:induction false} FirstInFirstOut<S, M, E, A>(
    subscriptions: map<nat, seq<Subscription<S, M, E, A>>>, states: map<nat, S>, pending: seq<Event<E>>, n: nat)
    requires Held(subscriptions, states)
    ensures var wave := Spread(subscriptions, states, pending, n);
      pending + wave.published == wave.delivered + wave.pending
    decreases n
  {
    if n > 0 && pending != [] {
      var event := pending[0];
      MatchingIsHeld(subscriptions, states, event.kind, IsOnEvent);
      var handled := Handled(states, EventHandlers(subscriptions, event), event);
      var more := Spread(subscriptions, handled.states, pending[1..] + handled.published, n - 1);
      FirstInFirstOut(subscriptions, handled.states, pending[1..] + handled.published, n - 1);
      assert pending == [event] + pending[1..];
      Rearrange([event], pending[1..], handled.published, more.published);
      Associate([event], more.delivered, more.pending);
    }
  }

  lemma Rearrange<E>(a: seq<Event<E>>, b: seq<Event<E>>, c: seq<Event<E>>, d: seq<Event<E>>)
    ensures (a + b) + (c + d) == a + ((b + c) + d)
  {
  }

  /** The states a cascade leaves, and its results, unless the limit cut it: then an error, and no event is kept. */
  ghost predicate SpreadsAs<S, M, E, A>(
    wave: Wave<S, E, A>, matchings: map<nat, M>, after: Bus<S, M, E, A>, r: Result<seq<seq<A>>, DispatchError>)
  {
    && r == (if wave.pending == [] then Ok(wave.results) else Err(EventCycleLimitExceeded))
    && after.pending == [] && StatesOf(after.components) == wave.states && MatchingsOf(after.components) == matchings
  }

  lemma DeliverSpreads<S(!new), M(!new), E(!new), A(!new)>(bus: Bus<S, M, E, A>)
    requires Good(bus)
    ensures Held(bus.subscriptions, StatesOf(bus.components))
    ensures var (after, r) := Deliver(bus, 0);
      var wave := Spread(bus.subscriptions, StatesOf(bus.components), bus.pending, MAX_EVENTS_PER_PUBLICATION);
      Good(after) && SameMounts(bus, after) && SpreadsAs(wave, MatchingsOf(bus.components), after, r)
  {
    hide Deliver, Good, Cascade, Spread;
    DeliverIsCascade(bus, 0);
    CascadeSpreads(bus, MAX_EVENTS_PER_PUBLICATION);
    var end := Cascade(bus, MAX_EVENTS_PER_PUBLICATION).0;
    SameMountsKeepGood(end, end.(pending := []));
  }

  /** A publication handles the event after those pending, then what the handlers publish, and changes no matcher. */
  lemma {:induction false} PublicationSpreads<S(!new), M(!new), E(!new), A(!new)>(bus: Bus<S, M, E, A>, event: Event<E>)
    requires Good(bus)
    ensures Held(bus.subscriptions, StatesOf(bus.components))
    ensures var (after, r) := Publish(bus, event);
      var wave := Spread(
          bus.subscriptions, StatesOf(bus.components), bus.pending + [event], MAX_EVENTS_PER_PUBLICATION);
      SpreadsAs(wave, MatchingsOf(bus.components), after, r)
  {
    var start := bus.(pending := bus.pending + [event]);
    SameMountsKeepGood(bus, start);
    DeliverSpreads(start);
  }

  // Input.

  lemma {:induction false} MatchingSame<T>(list: seq<T>, a: T -> bool, b: T -> bool)
    requires forall x :: x in list ==> a(x) == b(x)
    ensures Matching(list, a) == Matching(list, b)
  {
    if list != [] {
      assert list[|list| - 1] in list;
      MatchingSame(list[..|list| - 1], a, b);
    }
  }

  /** What the subscriptions that take an input answer. */
  ghost function AnswersOf<S, M, E, A>(
    subscriptions: map<nat, seq<Subscription<S, M, E, A>>>, matchings: map<nat, M>, states: map<nat, S>,
    event: Event<E>, takes: Subscription<S, M, E, A> -> bool): (r: Answering<S, M, E, A>)
    requires Held(subscriptions, states) && matchings.Keys == states.Keys
    ensures r.matchings.Keys == r.handling.states.Keys == states.Keys
  {
    MatchingIsHeld(subscriptions, states, event.kind, takes);
    Answered(matchings, states, Matching(ListOf(subscriptions, event.kind), takes), event)
  }

  lemma InputAnswers<S(!new), M(!new), E(!new), A(!new)>(bus: Bus<S, M, E, A>, event: Event<E>, scope: Scope,
      owner: Owner, takes: Subscription<S, M, E, A> -> bool)
    requires Good(bus)
    requires forall s :: s in ListOf(bus.subscriptions, event.kind) ==>
                           takes(s) == (s.kind == OnInput(scope) && Owns(owner, s.component))
    ensures Held(bus.subscriptions, StatesOf(bus.components))
    ensures var ran := Run(bus, InputHandlers(bus.subscriptions, event, scope, owner), event);
      && Good(ran.bus)
      && RanAs(
           bus, ran,
           AnswersOf(bus.subscriptions, MatchingsOf(bus.components), StatesOf(bus.components), event, takes))
  {
    GoodIsHeld(bus);
    InputKeeps(bus, event, scope, owner);
    var list := ListOf(bus.subscriptions, event.kind);
    MatchingSame(
      list, takes, (s: Subscription<S, M, E, A>) => s.kind == OnInput(scope) && Owns(owner, s.component));
    MatchingIs(list, takes);
    forall s | s in Matching(list, takes)
      ensures Bound(bus, s, event.kind)
    {
      assert s in list;
    }
    RunAnswers(bus, Matching(list, takes), event);
  }

  /** The answers, and then the cascade of what they published after what was pending. */
  ghost predicate EndsAs<S, M, E, A>(
    bus: Bus<S, M, E, A>, answered: Answering<S, M, E, A>, after: Bus<S, M, E, A>,
    r: Result<seq<seq<A>>, DispatchError>)
    requires Held(bus.subscriptions, answered.handling.states)
  {
    var pending := bus.pending + answered.handling.published;
    var wave := Spread(bus.subscriptions, answered.handling.states, pending, MAX_EVENTS_PER_PUBLICATION);
    SpreadsAs(wave.(results := answered.handling.actions + wave.results), answered.matchings, after, r)
  }

  function ResultsOf<A>(r: Result<InputDispatch<A>, DispatchError>): Result<seq<seq<A>>, DispatchError> {
    if r.Ok? then Ok(r.value.results) else Err(r.error)
  }

  lemma FinishedSpreads<S(!new), M(!new), E(!new), A(!new)>(bus: Bus<S, M, E, A>, ran: Ran<S, M, E, A>,
      answered: Answering<S, M, E, A>, awaiting: bool)
    requires RanAs(bus, ran, answered) && Good(ran.bus)
    ensures Held(bus.subscriptions, answered.handling.states)
    ensures var (after, r) := Finished(ran, awaiting);
      EndsAs(bus, answered, after, ResultsOf(r)) && (r.Ok? ==> r.value.pending == awaiting)
  {
    hide Deliver, Spread, Good;
    DeliverSpreads(ran.bus);
  }

  /** The answers of the handlers of input that `takes` selects on this bus. */
  ghost function Answers<S(!new), M(!new), E(!new), A(!new)>(bus: Bus<S, M, E, A>, event: Event<E>,
      takes: Subscription<S, M, E, A> -> bool): (r: Answering<S, M, E, A>)
    requires Good(bus)
    ensures Held(bus.subscriptions, r.handling.states)
  {
    GoodIsHeld(bus);
    AnswersOf(bus.subscriptions, MatchingsOf(bus.components), StatesOf(bus.components), event, takes)
  }

  /** Global input is taken by every global handler. */
  lemma {:induction false} GlobalInputIs<S(!new), M(!new), E(!new), A(!new)>(bus: Bus<S, M, E, A>, event: Event<E>)
    requires Good(bus)
    ensures var answered := Answers(bus, event, (s: Subscription<S, M, E, A>) => s.kind == OnInput(Global));
      var (after, r) := DispatchGlobal(bus, event);
      EndsAs(bus, answered, after, ResultsOf(r)) && (r.Ok? ==> r.value.pending == answered.awaiting)
  {
    var takes := (s: Subscription<S, M, E, A>) => s.kind == OnInput(Global);
    hide Spread, Good, Answered, Finished;
    InputAnswers(bus, event, Global, Any, takes);
    var ran := Run(bus, InputHandlers(bus.subscriptions, event, Global, Any), event);
    FinishedSpreads(bus, ran, Answers(bus, event, takes), ran.awaiting);
  }

  /** Hovered input is taken by the handlers of the hovered component. */
  lemma {:induction false} HoveredInputIs<S(!new), M(!new), E(!new), A(!new)>(bus: Bus<S, M, E, A>, event: Event<E>,
      target: nat)
    requires Good(bus)
    ensures var answered := Answers(
        bus, event, (s: Subscription<S, M, E, A>) => s.kind == OnInput(Hovered) && s.component == target);
      var (after, r) := DispatchHovered(bus, event, target);
      EndsAs(bus, answered, after, ResultsOf(r)) && (r.Ok? ==> !r.value.pending)
  {
    var takes := (s: Subscription<S, M, E, A>) => s.kind == OnInput(Hovered) && s.component == target;
    hide Spread, Good, Answered, Finished;
    InputAnswers(bus, event, Hovered, Only(target), takes);
    var ran := Run(bus, InputHandlers(bus.subscriptions, event, Hovered, Only(target)), event);
    FinishedSpreads(bus, ran, Answers(bus, event, takes), false);
  }

  /** Enclosing input is taken by the other components' handlers, and nothing more happens when none claims it. */
  lemma {:induction false} EnclosingInputIs<S(!new), M(!new), E(!new), A(!new)>(bus: Bus<S, M, E, A>, event: Event<E>,
      focused: nat)
    requires Good(bus)
    ensures var answered := Answers(
        bus, event, (s: Subscription<S, M, E, A>) => s.kind == OnInput(Enclosing) && s.component != focused);
      var (after, r) := DispatchEnclosing(bus, event, focused);
      if answered.handling.actions == [] && !answered.awaiting then r == Ok(None)
      else
        && r != Ok(None)
        && EndsAs(bus, answered, after, match r case Ok(results) => Ok(results.value) case Err(error) => Err(error))
  {
    var takes := (s: Subscription<S, M, E, A>) => s.kind == OnInput(Enclosing) && s.component != focused;
    hide Spread, Good, Answered, Finished;
    InputAnswers(bus, event, Enclosing, AllBut(focused), takes);
    var ran := Run(bus, InputHandlers(bus.subscriptions, event, Enclosing, AllBut(focused)), event);
    FinishedSpreads(bus, ran, Answers(bus, event, takes), false);
  }

  /** Input is taken by the focused component's handlers, and when none claims it is global input. */
  lemma {:induction false} FocusedInputIs<S(!new), M(!new), E(!new), A(!new)>(bus: Bus<S, M, E, A>, event: Event<E>,
      focused: nat)
    requires Good(bus)
    ensures var answered := Answers(
        bus, event, (s: Subscription<S, M, E, A>) => s.kind == OnInput(Focused) && s.component == focused);
      var (after, r) := Dispatch(bus, event, focused);
      if answered.handling.actions == [] && !answered.awaiting then
        exists left :: (after, r) == DispatchGlobal(left, event) && Good(left) && SameButMatching(bus, left)
                    && MatchingsOf(left.components) == answered.matchings
      else EndsAs(bus, answered, after, ResultsOf(r)) && (r.Ok? ==> !r.value.pending)
  {
    var takes := (s: Subscription<S, M, E, A>) => s.kind == OnInput(Focused) && s.component == focused;
    InputAnswers(bus, event, Focused, Only(focused), takes);
    var list := InputHandlers(bus.subscriptions, event, Focused, Only(focused));
    var ran := Run(bus, list, event);
    if ran.results == [] {
      UnresolvedRunsNothing(bus, list, event);
    }
    hide Spread, Good, Answered, Finished, DispatchGlobal, SameButMatching;
    FinishedSpreads(bus, ran, Answers(bus, event, takes), false);
  }
}
