/**
 What holds of the event bus in every history of mounts, removals, publications and input, and of
 each publication: it is a first-in first-out cascade, cut at the limit.
 */
module EventBusRuns {
  import opened Wrappers
  import opened EventBus

  // The invariant.

  /** A subscription to `event` of a mounted component of its type. */
  ghost predicate Bound<S(!new), M(!new), E(!new), A(!new)>(bus: Bus<S, M, E, A>, s: Subscription<S, M, E, A>,
                                                            event: nat)
  {
    && s.component in bus.components && bus.components[s.component].componentType == s.componentType
    && s.event == event
    && (s.kind == OnEvent ==> forall m: M, state: S, e: Event<E> :: s.matcher(m, state, e) == (m, Resolved(e)))
  }

  ghost predicate InMountOrder<S, M, E, A>(list: seq<Subscription<S, M, E, A>>) {
    forall i, j :: 0 <= i <= j < |list| ==> list[i].component <= list[j].component
  }

  /** Every subscription is of a mounted component, and those to an event are in mount order. */
  ghost predicate Good<S(!new), M(!new), E(!new), A(!new)>(bus: Bus<S, M, E, A>) {
    && (forall component: nat :: component in bus.components ==> component < bus.next)
    && (forall event: nat :: event in bus.subscriptions ==>
          InMountOrder(bus.subscriptions[event]) && bus.subscriptions[event] != [])
    && (forall event: nat, s :: event in bus.subscriptions && s in bus.subscriptions[event] ==> Bound(bus, s, event))
  }

  /** What handlers leave alone: which components are mounted, their types and the subscriptions. */
  ghost predicate SameMounts<S, M, E, A>(a: Bus<S, M, E, A>, b: Bus<S, M, E, A>) {
    && a.next == b.next && a.subscriptions == b.subscriptions && a.components.Keys == b.components.Keys
    && (forall c: nat :: c in a.components ==> a.components[c].componentType == b.components[c].componentType)
  }

  lemma SameMountsKeepGood<S(!new), M(!new), E(!new), A(!new)>(a: Bus<S, M, E, A>, b: Bus<S, M, E, A>)
    requires Good(a) && SameMounts(a, b)
    ensures Good(b)
  {
    forall event: nat, s | event in b.subscriptions && s in b.subscriptions[event]
      ensures Bound(b, s, event)
    {
      assert Bound(a, s, event);
    }
  }

  /** Whether `selected` are the elements of `list` that are wanted, each once and in their order: those at `picked`. */
  ghost predicate Selects<T>(list: seq<T>, wanted: T -> bool, picked: seq<nat>, selected: seq<T>) {
    && |picked| == |selected|
    && (forall k :: 0 <= k < |picked| ==> picked[k] < |list| && selected[k] == list[picked[k]])
    && (forall k, l :: 0 <= k < l < |picked| ==> picked[k] < picked[l])
    && (forall i: nat :: i in picked <==> i < |list| && wanted(list[i]))
  }

  lemma SelectsOneMore<T>(list: seq<T>, last: T, wanted: T -> bool, picked: seq<nat>, selected: seq<T>)
    requires Selects(list, wanted, picked, selected)
    ensures wanted(last) ==> Selects(list + [last], wanted, picked + [|list|], selected + [last])
    ensures !wanted(last) ==> Selects(list + [last], wanted, picked, selected)
  {
    forall i: nat
      ensures i in picked + [|list|] <==> i in picked || i == |list|
      ensures i in picked ==> i < |list|
    {
    }
  }

  lemma {:induction false} MatchingSelects<T>(list: seq<T>, wanted: T -> bool) returns (picked: seq<nat>)
    ensures Selects(list, wanted, picked, Matching(list, wanted))
    decreases |list|
  {
    picked := [];
    if list != [] {
      hide Selects;
      var before, last := list[..|list| - 1], list[|list| - 1];
      picked := MatchingSelects(before, wanted);
      SelectsOneMore(before, last, wanted, picked, Matching(before, wanted));
      assert list == before + [last];
      if wanted(last) {
        picked := picked + [|before|];
      } else {
        assert Matching(before, wanted) + [] == Matching(before, wanted);
      }
    }
  }

  lemma {:induction false} MatchingIs<S, M, E, A>(list: seq<Subscription<S, M, E, A>>,
                                                  wanted: Subscription<S, M, E, A> -> bool)
    ensures forall s :: s in Matching(list, wanted) <==> s in list && wanted(s)
    ensures InMountOrder(list) ==> InMountOrder(Matching(list, wanted))
  {
    var picked := MatchingSelects(list, wanted);
    var matched := Matching(list, wanted);
    forall s
      ensures s in matched <==> s in list && wanted(s)
    {
      if s in matched {
        var k :| 0 <= k < |matched| && matched[k] == s;
        assert picked[k] in picked;
      }
      if s in list && wanted(s) {
        var i: nat :| i < |list| && list[i] == s;
        assert i in picked;
      }
    }
    if InMountOrder(list) {
      forall k, l | 0 <= k <= l < |matched|
        ensures matched[k].component <= matched[l].component
      {
        assert picked[k] <= picked[l];
      }
    }
  }

  /**
   The handlers of an event are its subscriptions by mounted components but those to input, each once and
   in their order.
   */
  lemma {:induction false} HandlersAreSubscribers<S(!new), M(!new), E(!new), A(!new)>(bus: Bus<S, M, E, A>,
                                                                                      event: Event<E>)
    requires Good(bus)
    ensures exists picked: seq<nat> ::
              Selects(ListOf(bus.subscriptions, event.kind), IsOnEvent, picked, EventHandlers(bus.subscriptions, event))
    ensures InMountOrder(EventHandlers(bus.subscriptions, event))
    ensures forall s :: s in EventHandlers(bus.subscriptions, event) <==>
              s in ListOf(bus.subscriptions, event.kind) && s.kind == OnEvent
    ensures forall s :: s in EventHandlers(bus.subscriptions, event) ==> Bound(bus, s, event.kind)
  {
    var list := ListOf(bus.subscriptions, event.kind);
    MatchingIs(list, IsOnEvent);
    var picked := MatchingSelects(list, IsOnEvent);
    assert EventHandlers(bus.subscriptions, event) == Matching(list, IsOnEvent);
    assert Selects(list, IsOnEvent, picked, EventHandlers(bus.subscriptions, event));
    forall s | s in EventHandlers(bus.subscriptions, event)
      ensures Bound(bus, s, event.kind)
    {
      assert s in list;
    }
  }

  // Handlers.

  lemma {:induction false} RunKeeps<S(!new), M(!new), E(!new), A(!new)>(bus: Bus<S, M, E, A>,
      list: seq<Subscription<S, M, E, A>>,
        event: Event<E>)
    requires forall s :: s in list ==> Bound(bus, s, event.kind)
    ensures var ran := Run(bus, list, event);
      && ran.error == None && SameMounts(bus, ran.bus) && bus.pending <= ran.bus.pending
      && ((forall s :: s in list ==> s.kind == OnEvent) ==> |ran.results| == |list|)
    decreases |list|
  {
    if list != [] {
      var before, last := list[..|list| - 1], list[|list| - 1];
      assert forall s :: s in before ==> s in list;
      RunKeeps(bus, before, event);
      var ran := Run(bus, before, event);
      assert last in list && Bound(bus, last, event.kind);
      assert Bound(ran.bus, last, event.kind);
    }
  }

  lemma DeliverOneKeeps<S(!new), M(!new), E(!new), A(!new)>(bus: Bus<S, M, E, A>)
    requires Good(bus) && bus.pending != []
    ensures var ran := DeliverOne(bus);
      && ran.error == None && Good(ran.bus) && SameMounts(bus, ran.bus)
      && bus.pending[1..] <= ran.bus.pending
      && |ran.results| == |EventHandlers(bus.subscriptions, bus.pending[0])|
  {
    var event := bus.pending[0];
    var taken := bus.(pending := bus.pending[1..]);
    var list := EventHandlers(bus.subscriptions, event);
    HandlersAreSubscribers(bus, event);
    forall s | s in list
      ensures Bound(taken, s, event.kind)
    {
      assert Bound(bus, s, event.kind);
    }
    RunKeeps(taken, list, event);
    SameMountsKeepGood(bus, DeliverOne(bus).bus);
  }

  // A publication is a cascade.

  /** The first `n` pending events delivered in turn, with those they publish behind, and no limit. */
  ghost function Cascade<S, M, E, A>(bus: Bus<S, M, E, A>, n: nat): (Bus<S, M, E, A>, seq<seq<A>>)
    decreases n
  {
    if n == 0 || bus.pending == [] then (bus, [])
    else
      var ran := DeliverOne(bus);
      var (end, more) := Cascade(ran.bus, n - 1);
      (end, ran.results + more)
  }

  ghost predicate Drains<S, M, E, A>(bus: Bus<S, M, E, A>, n: nat) {
    Cascade(bus, n).0.pending == []
  }

  lemma {:induction false} DrainedStays<S, M, E, A>(bus: Bus<S, M, E, A>, n: nat, m: nat)
    requires Drains(bus, n) && n <= m
    ensures Cascade(bus, m) == Cascade(bus, n)
    decreases n
  {
    if n > 0 && bus.pending != [] {
      DrainedStays(DeliverOne(bus).bus, n - 1, m - 1);
    }
  }

  lemma {:induction false} DeliverIsCascade<S(!new), M(!new), E(!new), A(!new)>(bus: Bus<S, M, E, A>, delivered: nat)
    requires Good(bus) && delivered <= MAX_EVENTS_PER_PUBLICATION
    ensures var (end, results) := Cascade(bus, MAX_EVENTS_PER_PUBLICATION - delivered);
      && Good(end) && SameMounts(bus, end)
      && Deliver(bus, delivered) ==
         (end.(pending := []), if end.pending == [] then Ok(results) else Err(EventCycleLimitExceeded))
    decreases MAX_EVENTS_PER_PUBLICATION - delivered
  {
    if bus.pending != [] && delivered < MAX_EVENTS_PER_PUBLICATION {
      DeliverOneKeeps(bus);
      DeliverIsCascade(DeliverOne(bus).bus, delivered + 1);
    }
  }

  /**
   A publication succeeds exactly when the cascade it starts drains within the limit, and then with
   the results of that cascade. No other error occurs, and either way nothing is left pending.
   */
  lemma {:induction false} PublicationIsCascade<S(!new), M(!new), E(!new), A(!new)>(bus: Bus<S, M, E, A>,
      event: Event<E>)
    requires Good(bus)
    ensures var start := bus.(pending := bus.pending + [event]);
      var (after, r) := Publish(bus, event);
      && Good(after) && after.pending == [] && SameMounts(bus, after)
      && (r.Ok? <==> exists n :: 0 <= n <= MAX_EVENTS_PER_PUBLICATION && Drains(start, n))
      && (r.Ok? ==>
            forall n: nat :: Drains(start, n) ==> r.value == Cascade(start, n).1 && after == Cascade(start, n).0)
      && (r.Err? ==> r.error == EventCycleLimitExceeded)
  {
    hide Cascade, Deliver, Good;
    var start := bus.(pending := bus.pending + [event]);
    SameMountsKeepGood(bus, start);
    DeliverIsCascade(start, 0);
    var end := Cascade(start, MAX_EVENTS_PER_PUBLICATION).0;
    SameMountsKeepGood(end, end.(pending := []));
    var limit := MAX_EVENTS_PER_PUBLICATION;
    forall n: nat | Drains(start, n)
      ensures Drains(start, limit) ==> Cascade(start, n) == Cascade(start, limit)
      ensures n <= limit ==> Drains(start, limit)
    {
      if n <= limit {
        DrainedStays(start, n, limit);
      } else if Drains(start, limit) {
        DrainedStays(start, limit, n);
      }
    }
  }

  // Whole histories.

  /** What happens to a bus: `Enqueue` is a publisher's event outside a handler, `Change` a `get_mut`. */
  datatype Step<!S, !M, !E, A> =
    | Mount(component: Component<S, M>, published: seq<Event<E>>, registrations: seq<Registration<S, M, E, A>>)
    | Remove(target: nat)
    | Publication(event: Event<E>)
    | Input(event: Event<E>, focused: nat)
    | EnclosingInput(event: Event<E>, focused: nat)
    | GlobalInput(event: Event<E>)
    | HoveredInput(event: Event<E>, target: nat)
    | Enqueue(event: Event<E>)
    | Change(target: nat, state: S)

  function ErrorOf<T>(r: Result<T, DispatchError>): Option<DispatchError> {
    if r.Err? then Some(r.error) else None
  }

  function Next<S, M, E, A>(bus: Bus<S, M, E, A>, step: Step<S, M, E, A>): (Bus<S, M, E, A>, Option<DispatchError>) {
    match step
    case Mount(component, published, registrations) => (Mounted(bus, component, published, registrations), None)
    case Remove(target) => (Removed(bus, target), None)
    case Publication(event) => var (next, r) := Publish(bus, event); (next, ErrorOf(r))
    case Input(event, focused) => var (next, r) := Dispatch(bus, event, focused); (next, ErrorOf(r))
    case EnclosingInput(event, focused) => var (next, r) := DispatchEnclosing(bus, event, focused); (next, ErrorOf(r))
    case GlobalInput(event) => var (next, r) := DispatchGlobal(bus, event); (next, ErrorOf(r))
    case HoveredInput(event, target) => var (next, r) := DispatchHovered(bus, event, target); (next, ErrorOf(r))
    case Enqueue(event) => (bus.(pending := bus.pending + [event]), None)
    case Change(target, state) =>
      (if target in bus.components
       then bus.(components := bus.components[target := bus.components[target].(state := state)]) else bus, None)
  }

  lemma RegisterOneKeeps<S(!new), M(!new), E(!new), A(!new)>(bus: Bus<S, M, E, A>, s: Subscription<S, M, E, A>)
    requires Good(bus) && Bound(bus, s, s.event) && s.component + 1 == bus.next
    ensures Good(bus.(subscriptions := bus.subscriptions[s.event := ListOf(bus.subscriptions, s.event) + [s]]))
  {
    var next := bus.(subscriptions := bus.subscriptions[s.event := ListOf(bus.subscriptions, s.event) + [s]]);
    forall t | t in ListOf(bus.subscriptions, s.event)
      ensures t.component <= s.component
    {
      assert Bound(bus, t, s.event);
    }
    forall event: nat, t | event in next.subscriptions && t in next.subscriptions[event]
      ensures Bound(next, t, event)
    {
      if t != s || event != s.event {
        assert event in bus.subscriptions && t in bus.subscriptions[event];
        assert Bound(bus, t, event);
      }
    }
  }

  lemma {:induction false} RegisterKeeps<S(!new), M(!new), E(!new), A(!new)>(
    bus: Bus<S, M, E, A>, component: nat, componentType: nat, registrations: seq<Registration<S, M, E, A>>)
    requires Good(bus) && component + 1 == bus.next
    requires component in bus.components && bus.components[component].componentType == componentType
    ensures Good(bus.(subscriptions := Registered(bus.subscriptions, component, componentType, registrations)))
    decreases |registrations|
  {
    if registrations != [] {
      var n := |registrations| - 1;
      RegisterKeeps(bus, component, componentType, registrations[..n]);
      var before := bus.(subscriptions := Registered(bus.subscriptions, component, componentType, registrations[..n]));
      var s := Erased(component, componentType, registrations[n]);
      assert s.event == registrations[n].event;
      RegisterOneKeeps(before, s);
    }
  }

  lemma {:induction false} MountKeeps<S(!new), M(!new), E(!new), A(!new)>(
    bus: Bus<S, M, E, A>, component: Component<S, M>, published: seq<Event<E>>,
    registrations: seq<Registration<S, M, E, A>>)
    requires Good(bus)
    ensures var next := Mounted(bus, component, published, registrations);
      && Good(next) && next.pending == bus.pending + published
      && bus.next !in bus.components && next.components == bus.components[bus.next := component]
  {
    var placed := bus.(
      next := bus.next + 1, components := bus.components[bus.next := component], pending := bus.pending + published);
    forall event: nat, s | event in placed.subscriptions && s in placed.subscriptions[event]
      ensures Bound(placed, s, event)
    {
      assert Bound(bus, s, event);
    }
    RegisterKeeps(placed, bus.next, component.componentType, registrations);
  }

  lemma {:induction false} RemoveKeeps<S(!new), M(!new), E(!new), A(!new)>(bus: Bus<S, M, E, A>, target: nat)
    requires Good(bus)
    ensures var next := Removed(bus, target);
      && Good(next) && next.pending == bus.pending && next.components == bus.components - {target}
      && forall event: nat, s :: event in next.subscriptions && s in next.subscriptions[event] ==> s.component != target
  {
    var next := Removed(bus, target);
    if target in bus.components {
      forall event: nat | event in next.subscriptions
        ensures InMountOrder(next.subscriptions[event])
        ensures forall s :: s in next.subscriptions[event] ==> Bound(next, s, event)
      {
        MatchingIs(bus.subscriptions[event], (s: Subscription<S, M, E, A>) => s.component != target);
        forall s | s in next.subscriptions[event]
          ensures Bound(next, s, event)
        {
          assert Bound(bus, s, event);
        }
      }
    }
  }

  lemma FinishedKeeps<S(!new), M(!new), E(!new), A(!new)>(ran: Ran<S, M, E, A>, awaiting: bool)
    requires Good(ran.bus) && ran.error == None
    ensures var (next, r) := Finished(ran, awaiting);
      Good(next) && next.pending == [] && SameMounts(ran.bus, next) && (r.Err? ==> r.error == EventCycleLimitExceeded)
  {
    hide Cascade, Deliver, Good;
    DeliverIsCascade(ran.bus, 0);
    var end := Cascade(ran.bus, MAX_EVENTS_PER_PUBLICATION).0;
    SameMountsKeepGood(end, end.(pending := []));
  }

  lemma InputKeeps<S(!new), M(!new), E(!new), A(!new)>(bus: Bus<S, M, E, A>, event: Event<E>, scope: Scope,
      owner: Owner)
    requires Good(bus)
    ensures var ran := Run(bus, InputHandlers(bus.subscriptions, event, scope, owner), event);
      ran.error == None && Good(ran.bus) && SameMounts(bus, ran.bus)
  {
    var wanted := (s: Subscription<S, M, E, A>) => s.kind == OnInput(scope) && Owns(owner, s.component);
    var list := InputHandlers(bus.subscriptions, event, scope, owner);
    MatchingIs(ListOf(bus.subscriptions, event.kind), wanted);
    forall s | s in list
      ensures Bound(bus, s, event.kind)
    {
      InputHandlersAreSubscribers(bus.subscriptions, event, scope, owner, s);
    }
    RunKeeps(bus, list, event);
    SameMountsKeepGood(bus, Run(bus, list, event).bus);
  }

  lemma InputHandlersAreSubscribers<S, M, E, A>(
    subscriptions: map<nat, seq<Subscription<S, M, E, A>>>, event: Event<E>, scope: Scope, owner: Owner,
    s: Subscription<S, M, E, A>)
    requires s in InputHandlers(subscriptions, event, scope, owner)
    ensures s in ListOf(subscriptions, event.kind) && s.kind == OnInput(scope)
    ensures Owns(owner, s.component)
  {
    MatchingIs(ListOf(subscriptions, event.kind),
               (s: Subscription<S, M, E, A>) => s.kind == OnInput(scope) && Owns(owner, s.component));
  }

  lemma DispatchGlobalKeeps<S(!new), M(!new), E(!new), A(!new)>(bus: Bus<S, M, E, A>, event: Event<E>)
    requires Good(bus)
    ensures var (next, r) := DispatchGlobal(bus, event);
      Good(next) && next.pending == [] && SameMounts(bus, next) && (r.Err? ==> r.error == EventCycleLimitExceeded)
  {
    InputKeeps(bus, event, Global, Any);
    var ran := Run(bus, InputHandlers(bus.subscriptions, event, Global, Any), event);
    FinishedKeeps(ran, ran.awaiting);
  }

  lemma DispatchKeeps<S(!new), M(!new), E(!new), A(!new)>(bus: Bus<S, M, E, A>, event: Event<E>, focused: nat)
    requires Good(bus)
    ensures var (next, r) := Dispatch(bus, event, focused);
      Good(next) && next.pending == [] && SameMounts(bus, next) && (r.Err? ==> r.error == EventCycleLimitExceeded)
  {
    InputKeeps(bus, event, Focused, Only(focused));
    var ran := Run(bus, InputHandlers(bus.subscriptions, event, Focused, Only(focused)), event);
    if Claims(ran) {
      FinishedKeeps(ran, false);
    } else {
      DispatchGlobalKeeps(ran.bus, event);
    }
  }

  lemma DispatchHoveredKeeps<S(!new), M(!new), E(!new), A(!new)>(bus: Bus<S, M, E, A>, event: Event<E>, target: nat)
    requires Good(bus)
    ensures var (next, r) := DispatchHovered(bus, event, target);
      Good(next) && next.pending == [] && SameMounts(bus, next) && (r.Err? ==> r.error == EventCycleLimitExceeded)
  {
    InputKeeps(bus, event, Hovered, Only(target));
    FinishedKeeps(Run(bus, InputHandlers(bus.subscriptions, event, Hovered, Only(target)), event), false);
  }

  /** Whether only the states of matchers differ. */
  ghost predicate SameButMatching<S, M, E, A>(a: Bus<S, M, E, A>, b: Bus<S, M, E, A>) {
    && SameMounts(a, b) && a.pending == b.pending
    && (forall c: nat :: c in a.components ==> a.components[c].state == b.components[c].state)
  }

  /** Input that no matcher resolves runs no handler: it changes nothing but the states of matchers. */
  lemma {:induction false} UnresolvedRunsNothing<S, M, E, A>(bus: Bus<S, M, E, A>, list: seq<Subscription<S, M, E, A>>,
                                                             event: Event<E>)
    requires Run(bus, list, event).results == []
    ensures SameButMatching(bus, Run(bus, list, event).bus)
    decreases |list|
  {
    if list != [] {
      UnresolvedRunsNothing(bus, list[..|list| - 1], event);
    }
  }

  /**
   Enclosing input that is claimed leaves nothing pending. Unclaimed, it changes nothing but the states of
   matchers; so nothing is pending after it exactly when nothing was before.
   */
  lemma {:induction false} DispatchEnclosingKeeps<S(!new), M(!new), E(!new), A(!new)>(bus: Bus<S, M, E, A>,
        event: Event<E>, focused: nat)
    requires Good(bus)
    ensures var (next, r) := DispatchEnclosing(bus, event, focused);
      && Good(next) && SameMounts(bus, next) && (r.Err? ==> r.error == EventCycleLimitExceeded)
      && (r != Ok(None) ==> next.pending == [])
      && (r == Ok(None) ==> SameButMatching(bus, next) && (next.pending == [] <==> bus.pending == []))
  {
    InputKeeps(bus, event, Enclosing, AllBut(focused));
    var list := InputHandlers(bus.subscriptions, event, Enclosing, AllBut(focused));
    var ran := Run(bus, list, event);
    if Claims(ran) {
      FinishedKeeps(ran, false);
    } else {
      UnresolvedRunsNothing(bus, list, event);
    }
  }

  /**
   Every step keeps the subscriptions those of mounted components, in mount order; it meets no error
   but the limit; publications and input deliver what is pending, but for enclosing input unclaimed; and
   only a component's construction and a publisher leave more pending than there was.
   */
  lemma {:induction false} StepKeeps<S(!new), M(!new), E(!new), A(!new)>(bus: Bus<S, M, E, A>, step: Step<S, M, E, A>)
    requires Good(bus)
    ensures var (next, error) := Next(bus, step);
      && Good(next)
      && (error == None || error == Some(EventCycleLimitExceeded))
      && (step.Publication? || step.Input? || step.GlobalInput? || step.HoveredInput? ==> next.pending == [])
      && (!step.Mount? && !step.Enqueue? ==> next.pending == [] || next.pending == bus.pending)
      && (!step.Mount? && !step.Remove? ==> SameMounts(bus, next))
  {
    match step
    case Mount(component, published, registrations) => MountKeeps(bus, component, published, registrations);
    case Remove(target) => RemoveKeeps(bus, target);
    case Publication(event) => PublicationIsCascade(bus, event);
    case Input(event, focused) =>
      DispatchKeeps(bus, event, focused);
    case GlobalInput(event) =>
      DispatchGlobalKeeps(bus, event);
    case EnclosingInput(event, focused) => DispatchEnclosingKeeps(bus, event, focused);
    case HoveredInput(event, target) => DispatchHoveredKeeps(bus, event, target);
    case Enqueue(event) => SameMountsKeepGood(bus, Next(bus, step).0);
    case Change(target, state) => SameMountsKeepGood(bus, Next(bus, step).0);
  }

  function After<S, M, E, A>(steps: seq<Step<S, M, E, A>>): Bus<S, M, E, A> {
    if steps == [] then Bus(0, [], map[], map[]) else Next(After(steps[..|steps| - 1]), steps[|steps| - 1]).0
  }

  /** In every history the bus is good. */
  lemma {:induction false} HistoriesAreGood<S(!new), M(!new), E(!new), A(!new)>(steps: seq<Step<S, M, E, A>>)
    ensures Good(After(steps))
  {
    if steps != [] {
      HistoriesAreGood(steps[..|steps| - 1]);
      StepKeeps(After(steps[..|steps| - 1]), steps[|steps| - 1]);
    }
  }

  // The handlers of an event, over whole histories.

  /** A component mounted, with what its type declares. */
  datatype Mounting<!S, !M, !E, A> = Mounting(
    component: nat, componentType: nat, registrations: seq<Registration<S, M, E, A>>)

  function StillMounted<S, M, E, A>(mountings: seq<Mounting<S, M, E, A>>, removed: nat): seq<Mounting<S, M, E, A>> {
    if mountings == [] then []
    else
      var last := mountings[|mountings| - 1];
      StillMounted(mountings[..|mountings| - 1], removed) + if last.component != removed then [last] else []
  }

  /** The components mounted and not removed since, in mount order. */
  function Mountings<S, M, E, A>(steps: seq<Step<S, M, E, A>>): seq<Mounting<S, M, E, A>> {
    if steps == [] then []
    else
      var before := steps[..|steps| - 1];
      match steps[|steps| - 1]
      case Mount(component, _, registrations) =>
        Mountings(before) + [Mounting(After(before).next, component.componentType, registrations)]
      case Remove(target) => StillMounted(Mountings(before), target)
      case _ => Mountings(before)
  }

  function DeclaredOne<S, M, E, A>(component: nat, componentType: nat, r: Registration<S, M, E, A>):
    Subscription<S, M, E, A>
  {
    Subscription(
      component, componentType, r.event, if r.SubscribeInput? then OnInput(r.scope) else OnEvent,
      if r.SubscribeInput? then r.matcher else EveryEvent, r.handler)
  }

  /** The subscriptions to an event that a component's registrations make, in their order. */
  function Declared<S, M, E, A>(component: nat, componentType: nat, registrations: seq<Registration<S, M, E, A>>,
                                event: nat): seq<Subscription<S, M, E, A>>
  {
    if registrations == [] then []
    else
      var last := registrations[|registrations| - 1];
      Declared(component, componentType, registrations[..|registrations| - 1], event)
      + if last.event == event then [DeclaredOne(component, componentType, last)] else []
  }

  function DeclaredBy<S, M, E, A>(mountings: seq<Mounting<S, M, E, A>>, event: nat): seq<Subscription<S, M, E, A>> {
    if mountings == [] then []
    else
      var last := mountings[|mountings| - 1];
      DeclaredBy(mountings[..|mountings| - 1], event)
      + Declared(last.component, last.componentType, last.registrations, event)
  }

  lemma {:induction false} RegisteredAreDeclared<S, M, E, A>(
    subscriptions: map<nat, seq<Subscription<S, M, E, A>>>, component: nat, componentType: nat,
    registrations: seq<Registration<S, M, E, A>>, event: nat)
    ensures ListOf(Registered(subscriptions, component, componentType, registrations), event)
         == ListOf(subscriptions, event) + Declared(component, componentType, registrations, event)
    decreases |registrations|
  {
    if registrations != [] {
      RegisteredAreDeclared(subscriptions, component, componentType, registrations[..|registrations| - 1], event);
    }
  }

  lemma {:induction false} WithoutBoth<S, M, E, A>(a: seq<Subscription<S, M, E, A>>, b: seq<Subscription<S, M, E, A>>,
                                                   target: nat)
    ensures Without(a + b, target) == Without(a, target) + Without(b, target)
    decreases |b|
  {
    if b == [] {
      assert a + b == a;
    } else {
      assert (a + b)[..|a + b| - 1] == a + b[..|b| - 1];
      WithoutBoth(a, b[..|b| - 1], target);
    }
  }

  lemma {:induction false} WithoutDeclared<S, M, E, A>(component: nat, componentType: nat,
        registrations: seq<Registration<S, M, E, A>>, event: nat, target: nat)
    ensures var declared := Declared(component, componentType, registrations, event);
      Without(declared, target) == if component == target then [] else declared
    decreases |registrations|
  {
    if registrations != [] {
      var before, last := registrations[..|registrations| - 1], registrations[|registrations| - 1];
      WithoutDeclared(component, componentType, before, event, target);
      var declared, own := Declared(component, componentType, before, event),
          DeclaredOne(component, componentType, last);
      if last.event == event {
        WithoutBoth(declared, [own], target);
        assert [own][..0] == [];
        assert Without([own], target) == if component == target then [] else [own];
      } else {
        assert declared + [] == declared;
      }
    }
  }

  lemma {:induction false} WithoutDeclaredBy<S, M, E, A>(mountings: seq<Mounting<S, M, E, A>>, event: nat, target: nat)
    ensures Without(DeclaredBy(mountings, event), target) == DeclaredBy(StillMounted(mountings, target), event)
    decreases |mountings|
  {
    if mountings != [] {
      var before, last := mountings[..|mountings| - 1], mountings[|mountings| - 1];
      WithoutDeclaredBy(before, event, target);
      var declared := Declared(last.component, last.componentType, last.registrations, event);
      WithoutBoth(DeclaredBy(before, event), declared, target);
      WithoutDeclared(last.component, last.componentType, last.registrations, event, target);
      if last.component != target {
        var still := StillMounted(before, target);
        assert (still + [last])[..|still|] == still;
      } else {
        assert StillMounted(mountings, target) == StillMounted(before, target);
      }
    }
  }

  ghost predicate AreMounted<S, M, E, A>(mountings: seq<Mounting<S, M, E, A>>, bus: Bus<S, M, E, A>) {
    forall i :: 0 <= i < |mountings| ==> mountings[i].component in bus.components
  }

  lemma {:induction false} StillAreMounted<S, M, E, A>(mountings: seq<Mounting<S, M, E, A>>, bus: Bus<S, M, E, A>,
                                                       target: nat)
    requires AreMounted(mountings, bus)
    ensures AreMounted(StillMounted(mountings, target), Removed(bus, target))
    ensures target !in bus.components ==> StillMounted(mountings, target) == mountings
    decreases |mountings|
  {
    if mountings != [] {
      var before := mountings[..|mountings| - 1];
      StillAreMounted(before, bus, target);
      assert mountings == before + [mountings[|mountings| - 1]];
    }
  }

  /**
   In every history, the subscriptions to an event are those that the components still mounted declare: in
   mount order, each component's in the order of its registrations, each as often as it is registered.
   */
  lemma {:induction false} SubscriptionsAreDeclared<S(!new), M(!new), E(!new), A(!new)>(
    steps: seq<Step<S, M, E, A>>, event: nat)
    ensures ListOf(After(steps).subscriptions, event) == DeclaredBy(Mountings(steps), event)
    ensures AreMounted(Mountings(steps), After(steps))
    decreases |steps|
  {
    if steps != [] {
      var before, last := steps[..|steps| - 1], steps[|steps| - 1];
      var bus, mountings := After(before), Mountings(before);
      SubscriptionsAreDeclared(before, event);
      HistoriesAreGood(before);
      StepKeeps(bus, last);
      if last.Mount? {
        RegisteredAreDeclared(bus.subscriptions, bus.next, last.component.componentType, last.registrations, event);
        assert Mountings(steps)[..|mountings|] == mountings;
      } else if last.Remove? {
        WithoutDeclaredBy(mountings, event, last.target);
        StillAreMounted(mountings, bus, last.target);
        assert Without<S, M, E, A>([], last.target) == [];
      }
    }
  }
}
