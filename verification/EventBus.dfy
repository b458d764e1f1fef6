/**
 `crates/component-core/src/lib.rs`: the components of the application, and the events delivered
 between them.

 A handler is a function of the component's state and the event; what it publishes waits in the
 queue until it returned. An input matcher is a function of its own state, its component's and the
 input; the matchers of one component keep their states together. `ComponentEventBus` is the source's
 object, proved against functions over `Bus`, its value.
 */
module EventBus {
  import opened Wrappers

  const MAX_EVENTS_PER_PUBLICATION := 1024

  datatype Event<E> = Event(kind: nat, value: E)

  datatype Invocation<A> = NoMatch | AwaitingMoreInput | Matched(actions: seq<A>)

  /** What a matcher makes of raw input: the input it passes to its handler, when it matches. */
  datatype Resolution<E> = Unmatched | MoreInput | Resolved(input: Event<E>)

  datatype Scope = Global | Focused | Enclosing | Hovered

  datatype Kind = OnEvent | OnInput(scope: Scope)

  /**
   What a component type declares: the handler of one kind of event; or the matcher of input in a scope,
   and the handler of what it resolves. A matcher reads its component and changes its own state alone.
   */
  datatype Registration<!S, !M, !E, A> =
    | Subscribe(event: nat, handler: (S, Event<E>) -> (S, seq<Event<E>>, seq<A>))
    | SubscribeInput(
        event: nat,
        scope: Scope,
        matcher: (M, S, Event<E>) -> (M, Resolution<E>),
        handler: (S, Event<E>) -> (S, seq<Event<E>>, seq<A>))

  datatype Subscription<!S, !M, !E, A> = Subscription(
    component: nat,
    componentType: nat,
    event: nat,
    kind: Kind,
    matcher: (M, S, Event<E>) -> (M, Resolution<E>),
    handler: (S, Event<E>) -> (S, seq<Event<E>>, seq<A>))

  /** A component, and the state of its matchers. */
  datatype Component<S, M> = Component(componentType: nat, state: S, matching: M)

  datatype DispatchError = ComponentNotFound | ComponentTypeMismatch | EventTypeMismatch | EventCycleLimitExceeded

  datatype Bus<!S, !M, !E, A> = Bus(
    next: nat,
    pending: seq<Event<E>>,
    subscriptions: map<nat, seq<Subscription<S, M, E, A>>>,
    components: map<nat, Component<S, M>>)

  // What the bus computes.

  /** The matcher of an ordinary event: every one, as it is. */
  function EveryEvent<S, M, E>(matching: M, state: S, event: Event<E>): (M, Resolution<E>) {
    (matching, Resolved(event))
  }

  function Erased<S, M, E, A>(component: nat, componentType: nat, r: Registration<S, M, E, A>):
    Subscription<S, M, E, A>
  {
    match r
    case Subscribe(event, handler) =>
      Subscription(component, componentType, event, OnEvent, EveryEvent, handler)
    case SubscribeInput(event, scope, matcher, handler) =>
      Subscription(component, componentType, event, OnInput(scope), matcher, handler)
  }

  function ListOf<S, M, E, A>(subscriptions: map<nat, seq<Subscription<S, M, E, A>>>, event: nat):
    seq<Subscription<S, M, E, A>>
  {
    if event in subscriptions then subscriptions[event] else []
  }

  function Registered<S, M, E, A>(
    subscriptions: map<nat, seq<Subscription<S, M, E, A>>>, component: nat, componentType: nat,
    registrations: seq<Registration<S, M, E, A>>): map<nat, seq<Subscription<S, M, E, A>>>
  {
    if registrations == [] then subscriptions
    else
      var n := |registrations| - 1;
      var before := Registered(subscriptions, component, componentType, registrations[..n]);
      var event := registrations[n].event;
      before[event := ListOf(before, event) + [Erased(component, componentType, registrations[n])]]
  }

  /** A component mounted, which published `published` while it was constructed. */
  function Mounted<S, M, E, A>(
    bus: Bus<S, M, E, A>, component: Component<S, M>, published: seq<Event<E>>,
    registrations: seq<Registration<S, M, E, A>>): Bus<S, M, E, A>
  {
    Bus(
      bus.next + 1,
      bus.pending + published,
      Registered(bus.subscriptions, bus.next, component.componentType, registrations),
      bus.components[bus.next := component])
  }

  function Matching<T>(list: seq<T>, wanted: T -> bool): seq<T> {
    if list == [] then []
    else
      Matching(list[..|list| - 1], wanted)
      + if wanted(list[|list| - 1]) then [list[|list| - 1]] else []
  }

  function Without<S, M, E, A>(list: seq<Subscription<S, M, E, A>>, target: nat): seq<Subscription<S, M, E, A>> {
    Matching(list, (s: Subscription<S, M, E, A>) => s.component != target)
  }

  function Removed<S, M, E, A>(bus: Bus<S, M, E, A>, target: nat): Bus<S, M, E, A> {
    if target !in bus.components then bus
    else
      bus.(
        components := bus.components - {target},
        subscriptions := map event | event in bus.subscriptions && Without(bus.subscriptions[event], target) != []
                           :: Without(bus.subscriptions[event], target))
  }

  function Invoke<S, M, E, A>(bus: Bus<S, M, E, A>, s: Subscription<S, M, E, A>, event: Event<E>):
    (Bus<S, M, E, A>, Result<Invocation<A>, DispatchError>)
  {
    if s.component !in bus.components then (bus, Err(ComponentNotFound))
    else
      var component := bus.components[s.component];
      if component.componentType != s.componentType then (bus, Err(ComponentTypeMismatch))
      else if event.kind != s.event then (bus, Err(EventTypeMismatch))
      else
        var (matching, resolution) := s.matcher(component.matching, component.state, event);
        var matched := component.(matching := matching);
        match resolution
        case Unmatched => (bus.(components := bus.components[s.component := matched]), Ok(NoMatch))
        case MoreInput => (bus.(components := bus.components[s.component := matched]), Ok(AwaitingMoreInput))
        case Resolved(input) =>
          var (state, published, actions) := s.handler(component.state, input);
          (bus.(
             components := bus.components[s.component := matched.(state := state)],
             pending := bus.pending + published),
           Ok(Matched(actions)))
  }

  /** Handlers run in turn: what they returned, and whether one awaits more input, or an error. */
  datatype Ran<!S, !M, !E, A> = Ran(
    bus: Bus<S, M, E, A>, results: seq<seq<A>>, awaiting: bool, error: Option<DispatchError>)

  function RunOne<S, M, E, A>(ran: Ran<S, M, E, A>, s: Subscription<S, M, E, A>, event: Event<E>): Ran<S, M, E, A> {
    if ran.error.Some? then ran
    else
      match Invoke(ran.bus, s, event)
      case (bus, Err(error)) => ran.(bus := bus, error := Some(error))
      case (bus, Ok(NoMatch)) => ran.(bus := bus)
      case (bus, Ok(AwaitingMoreInput)) => ran.(bus := bus, awaiting := true)
      case (bus, Ok(Matched(actions))) => ran.(bus := bus, results := ran.results + [actions])
  }

  function Run<S, M, E, A>(bus: Bus<S, M, E, A>, list: seq<Subscription<S, M, E, A>>, event: Event<E>):
    Ran<S, M, E, A>
  {
    if list == [] then Ran(bus, [], false, None)
    else RunOne(Run(bus, list[..|list| - 1], event), list[|list| - 1], event)
  }

  predicate IsOnEvent<S, M, E, A>(s: Subscription<S, M, E, A>) {
    s.kind == OnEvent
  }

  function EventHandlers<S, M, E, A>(subscriptions: map<nat, seq<Subscription<S, M, E, A>>>, event: Event<E>):
    seq<Subscription<S, M, E, A>>
  {
    Matching(ListOf(subscriptions, event.kind), IsOnEvent)
  }

  /** Which components' handlers take input. */
  datatype Owner = Any | Only(component: nat) | AllBut(component: nat)

  predicate Owns(owner: Owner, component: nat) {
    owner == Any || owner == Only(component) || (owner.AllBut? && owner.component != component)
  }

  /** The handlers of input in a scope. */
  function InputHandlers<S, M, E, A>(
    subscriptions: map<nat, seq<Subscription<S, M, E, A>>>, event: Event<E>, scope: Scope, owner: Owner):
    seq<Subscription<S, M, E, A>>
  {
    Matching(ListOf(subscriptions, event.kind),
             (s: Subscription<S, M, E, A>) => s.kind == OnInput(scope) && Owns(owner, s.component))
  }

  /** One pending event delivered. */
  function DeliverOne<S, M, E, A>(bus: Bus<S, M, E, A>): Ran<S, M, E, A>
    requires bus.pending != []
  {
    var event := bus.pending[0];
    Run(bus.(pending := bus.pending[1..]), EventHandlers(bus.subscriptions, event), event)
  }

  /** The pending events delivered, when `delivered` of the publication's were before. */
  function Deliver<S, M, E, A>(bus: Bus<S, M, E, A>, delivered: nat):
    (Bus<S, M, E, A>, Result<seq<seq<A>>, DispatchError>)
    requires delivered <= MAX_EVENTS_PER_PUBLICATION
    decreases MAX_EVENTS_PER_PUBLICATION - delivered
  {
    if bus.pending == [] then (bus, Ok([]))
    else if delivered == MAX_EVENTS_PER_PUBLICATION then (bus.(pending := []), Err(EventCycleLimitExceeded))
    else
      var ran := DeliverOne(bus);
      if ran.error.Some? then (ran.bus, Err(ran.error.value))
      else Prepended(ran.results, Deliver(ran.bus, delivered + 1))
  }

  function Prepended<S, M, E, A>(results: seq<seq<A>>, r: (Bus<S, M, E, A>, Result<seq<seq<A>>, DispatchError>)):
    (Bus<S, M, E, A>, Result<seq<seq<A>>, DispatchError>)
  {
    match r.1
    case Err(_) => r
    case Ok(more) => (r.0, Ok(results + more))
  }

  function Publish<S, M, E, A>(bus: Bus<S, M, E, A>, event: Event<E>):
    (Bus<S, M, E, A>, Result<seq<seq<A>>, DispatchError>)
  {
    Deliver(bus.(pending := bus.pending + [event]), 0)
  }

  /** What a dispatch of input returns: the results, and whether a global handler awaits more input. */
  datatype InputDispatch<A> = InputDispatch(results: seq<seq<A>>, pending: bool)

  /** What handlers ran returned, and then what the events they published did. */
  function Finished<S, M, E, A>(ran: Ran<S, M, E, A>, pending: bool):
    (Bus<S, M, E, A>, Result<InputDispatch<A>, DispatchError>)
  {
    if ran.error.Some? then (ran.bus, Err(ran.error.value))
    else
      match Deliver(ran.bus, 0)
      case (bus, Err(error)) => (bus, Err(error))
      case (bus, Ok(more)) => (bus, Ok(InputDispatch(ran.results + more, pending)))
  }

  function Claims<S, M, E, A>(ran: Ran<S, M, E, A>): bool {
    ran.results != [] || ran.awaiting
  }

  function DispatchGlobal<S, M, E, A>(bus: Bus<S, M, E, A>, event: Event<E>):
    (Bus<S, M, E, A>, Result<InputDispatch<A>, DispatchError>)
  {
    var ran := Run(bus, InputHandlers(bus.subscriptions, event, Global, Any), event);
    Finished(ran, ran.awaiting)
  }

  /** Input for the focused component, and for the global handlers when that does not claim it. */
  function Dispatch<S, M, E, A>(bus: Bus<S, M, E, A>, event: Event<E>, focused: nat):
    (Bus<S, M, E, A>, Result<InputDispatch<A>, DispatchError>)
  {
    var ran := Run(bus, InputHandlers(bus.subscriptions, event, Focused, Only(focused)), event);
    if ran.error.Some? || Claims(ran) then Finished(ran, false) else DispatchGlobal(ran.bus, event)
  }

  /** Input for the components that enclose the focused one: none when they do not claim it. */
  function DispatchEnclosing<S, M, E, A>(bus: Bus<S, M, E, A>, event: Event<E>, focused: nat):
    (Bus<S, M, E, A>, Result<Option<seq<seq<A>>>, DispatchError>)
  {
    var ran := Run(bus, InputHandlers(bus.subscriptions, event, Enclosing, AllBut(focused)), event);
    if ran.error == None && !Claims(ran) then (ran.bus, Ok(None))
    else
      match Finished(ran, false)
      case (next, Err(error)) => (next, Err(error))
      case (next, Ok(dispatch)) => (next, Ok(Some(dispatch.results)))
  }

  /** Input for the hovered component. */
  function DispatchHovered<S, M, E, A>(bus: Bus<S, M, E, A>, event: Event<E>, target: nat):
    (Bus<S, M, E, A>, Result<InputDispatch<A>, DispatchError>)
  {
    Finished(Run(bus, InputHandlers(bus.subscriptions, event, Hovered, Only(target)), event), false)
  }

  // The object.

  class ComponentEventBus<S(!new), M(!new), E(!new), A(!new)> {
    var next: nat
    var pending: seq<Event<E>>
    var subscriptions: map<nat, seq<Subscription<S, M, E, A>>>
    var components: map<nat, Component<S, M>>

    constructor ()
      ensures Now() == Bus(0, [], map[], map[])
    {
      next, pending, subscriptions, components := 0, [], map[], map[];
    }

    ghost function Now(): Bus<S, M, E, A>
      reads this
    {
      Bus(next, pending, subscriptions, components)
    }

    method Mount(component: Component<S, M>, published: seq<Event<E>>, registrations: seq<Registration<S, M, E, A>>)
      returns (id: nat)
      modifies this
      ensures id == old(next) && Now() == Mounted(old(Now()), component, published, registrations)
    {
      id := next;
      next := next + 1;
      pending := pending + published;
      for index := 0 to |registrations|
        invariant next == id + 1 && pending == old(pending) + published && components == old(components)
        invariant subscriptions == Registered(old(subscriptions), id, component.componentType, registrations[..index])
      {
        assert registrations[..index + 1][..index] == registrations[..index];
        var event := registrations[index].event;
        subscriptions := subscriptions[
          event := ListOf(subscriptions, event) + [Erased(id, component.componentType, registrations[index])]];
      }
      assert registrations[..|registrations|] == registrations;
      components := components[id := component];
    }

    method Remove(target: nat) returns (removed: bool)
      modifies this
      ensures removed == (target in old(components)) && Now() == Removed(old(Now()), target)
    {
      removed := target in components;
      if removed {
        components := components - {target};
        subscriptions := map event | event in subscriptions && Without(subscriptions[event], target) != []
                           :: Without(subscriptions[event], target);
      }
    }

    method InvokeHandler(s: Subscription<S, M, E, A>, event: Event<E>) returns (r: Result<Invocation<A>, DispatchError>)
      modifies this
      ensures (Now(), r) == Invoke(old(Now()), s, event)
    {
      if s.component !in components {
        return Err(ComponentNotFound);
      }
      var component := components[s.component];
      if component.componentType != s.componentType {
        return Err(ComponentTypeMismatch);
      }
      if event.kind != s.event {
        return Err(EventTypeMismatch);
      }
      var (matching, resolution) := s.matcher(component.matching, component.state, event);
      component := component.(matching := matching);
      components := components[s.component := component];
      match resolution {
        case Unmatched => return Ok(NoMatch);
        case MoreInput => return Ok(AwaitingMoreInput);
        case Resolved(input) =>
          var (state, published, actions) := s.handler(component.state, input);
          components := components[s.component := component.(state := state)];
          assert components == old(components)[s.component := component.(state := state)];
          pending := pending + published;
          return Ok(Matched(actions));
      }
    }

    method InvokeAll(list: seq<Subscription<S, M, E, A>>, event: Event<E>)
      returns (results: seq<seq<A>>, awaiting: bool, error: Option<DispatchError>)
      modifies this
      ensures Ran(Now(), results, awaiting, error) == Run(old(Now()), list, event)
    {
      results, awaiting, error := [], false, None;
      for index := 0 to |list|
        invariant error == None
        invariant Ran(Now(), results, awaiting, error) == Run(old(Now()), list[..index], event)
      {
        assert list[..index + 1][..index] == list[..index];
        var r := InvokeHandler(list[index], event);
        match r {
          case Err(e) =>
            error := Some(e);
            RunStops(old(Now()), list, index + 1, event);
            return;
          case Ok(NoMatch) =>
          case Ok(AwaitingMoreInput) => awaiting := true;
          case Ok(Matched(actions)) => results := results + [actions];
        }
      }
      assert list[..|list|] == list;
    }

    method DeliverPendingEvents() returns (r: Result<seq<seq<A>>, DispatchError>)
      modifies this
      ensures (Now(), r) == Deliver(old(Now()), 0)
    {
      var results: seq<seq<A>> := [];
      var delivered := 0;
      PrependedNothing(Deliver(Now(), 0));
      while pending != []
        invariant delivered <= MAX_EVENTS_PER_PUBLICATION
        invariant Deliver(old(Now()), 0) == Prepended(results, Deliver(Now(), delivered))
        decreases MAX_EVENTS_PER_PUBLICATION - delivered
      {
        ghost var before := Now();
        var event := pending[0];
        pending := pending[1..];
        if delivered == MAX_EVENTS_PER_PUBLICATION {
          pending := [];
          return Err(EventCycleLimitExceeded);
        }
        var list := EventHandlers(subscriptions, event);
        var ran, _, error := InvokeAll(list, event);
        if error.Some? {
          return Err(error.value);
        }
        PrependedTwice(results, ran, Deliver(Now(), delivered + 1));
        results := results + ran;
        delivered := delivered + 1;
      }
      assert results + [] == results;
      return Ok(results);
    }

    method PublishEvent(event: Event<E>) returns (r: Result<seq<seq<A>>, DispatchError>)
      modifies this
      ensures (Now(), r) == Publish(old(Now()), event)
    {
      pending := pending + [event];
      r := DeliverPendingEvents();
    }

    method DispatchGlobalInput(event: Event<E>) returns (r: Result<InputDispatch<A>, DispatchError>)
      modifies this
      ensures (Now(), r) == DispatchGlobal(old(Now()), event)
    {
      var list := InputHandlers(subscriptions, event, Global, Any);
      var results, awaiting, error := InvokeAll(list, event);
      r := Finish(results, error, awaiting);
    }

    method DispatchInput(event: Event<E>, focused: nat) returns (r: Result<InputDispatch<A>, DispatchError>)
      modifies this
      ensures (Now(), r) == Dispatch(old(Now()), event, focused)
    {
      var list := InputHandlers(subscriptions, event, Focused, Only(focused));
      var results, awaiting, error := InvokeAll(list, event);
      if error.Some? || results != [] || awaiting {
        r := Finish(results, error, false);
      } else {
        r := DispatchGlobalInput(event);
      }
    }

    method DispatchEnclosingInput(event: Event<E>, focused: nat)
      returns (r: Result<Option<seq<seq<A>>>, DispatchError>)
      modifies this
      ensures (Now(), r) == DispatchEnclosing(old(Now()), event, focused)
    {
      var list := InputHandlers(subscriptions, event, Enclosing, AllBut(focused));
      var results, awaiting, error := InvokeAll(list, event);
      if error == None && results == [] && !awaiting {
        return Ok(None);
      }
      var dispatch := Finish(results, error, false);
      match dispatch {
        case Err(e) => return Err(e);
        case Ok(all) => return Ok(Some(all.results));
      }
    }

    method DispatchHoveredInput(event: Event<E>, target: nat) returns (r: Result<InputDispatch<A>, DispatchError>)
      modifies this
      ensures (Now(), r) == DispatchHovered(old(Now()), event, target)
    {
      var list := InputHandlers(subscriptions, event, Hovered, Only(target));
      var results, awaiting, error := InvokeAll(list, event);
      r := Finish(results, error, false);
    }

    method Finish(results: seq<seq<A>>, error: Option<DispatchError>, awaiting: bool)
      returns (r: Result<InputDispatch<A>, DispatchError>)
      modifies this
      ensures (Now(), r) == Finished(Ran(old(Now()), results, awaiting, error), awaiting)
    {
      if error.Some? {
        return Err(error.value);
      }
      var more := DeliverPendingEvents();
      match more {
        case Err(e) => return Err(e);
        case Ok(all) => return Ok(InputDispatch(results + all, awaiting));
      }
    }
  }

  lemma {:induction false} RunStops<S, M, E, A>(bus: Bus<S, M, E, A>, list: seq<Subscription<S, M, E, A>>, n: nat,
        event: Event<E>)
    requires n <= |list| && Run(bus, list[..n], event).error.Some?
    ensures Run(bus, list, event) == Run(bus, list[..n], event)
    decreases |list| - n
  {
    if n < |list| {
      assert list[..n + 1][..n] == list[..n];
      RunStops(bus, list, n + 1, event);
    } else {
      assert list[..n] == list;
    }
  }

  lemma PrependedNothing<S, M, E, A>(r: (Bus<S, M, E, A>, Result<seq<seq<A>>, DispatchError>))
    ensures Prepended([], r) == r
  {
    if r.1.Ok? {
      assert [] + r.1.value == r.1.value;
    }
  }

  lemma PrependedTwice<S, M, E, A>(a: seq<seq<A>>, b: seq<seq<A>>,
                                   r: (Bus<S, M, E, A>, Result<seq<seq<A>>, DispatchError>))
    ensures Prepended(a, Prepended(b, r)) == Prepended(a + b, r)
  {
    if r.1.Ok? {
      assert a + (b + r.1.value) == a + b + r.1.value;
    }
  }
}
