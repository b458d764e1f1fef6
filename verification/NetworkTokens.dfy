/**
 `crates/review-explore-page-host/src/network.rs`: the tokens that open the page beyond this machine.

 Every operation but `Find` reads the running round and changes the tokens under one lock, so it takes
 effect at once when it reads the round. `Find` reads the running round before it locks: any steps may
 come between. A run is any interleaving of such steps with changes of the running round.
 */
module NetworkTokens {
  import opened Wrappers

  /** A random token: the number of tokens drawn before it. */
  type Token = nat

  /** The token of one round, or of the round that starts next. */
  datatype RoundToken = RoundToken(round: Option<string>, token: Token)

  /** An address announced, and its token. */
  datatype Announcement = Announcement(address: string, token: Token)

  datatype Current = Current(
    token: Option<RoundToken>, closed: bool, announcer: Option<string>, drawn: nat, announced: seq<Announcement>)

  predicate Opens(token: RoundToken, running: Option<string>) {
    token.round == None || token.round == running
  }

  function Announced(current: Current): Current {
    if current.announcer.Some? && current.token.Some? then
      current.(announced := current.announced + [Announcement(current.announcer.value, current.token.value.token)])
    else current
  }

  function Renewed(current: Current, running: Option<string>): Current {
    if current.closed then current
    else if current.token.Some? && current.token.value.round == running then current
    else if current.token.Some? && current.token.value.round == None then
      Announced(current.(token := Some(RoundToken(running, current.token.value.token))))
    else Announced(current.(token := Some(RoundToken(running, current.drawn)), drawn := current.drawn + 1))
  }

  function AnnouncedTo(current: Current, announcer: Option<string>): Current {
    Announced(current.(announcer := announcer))
  }

  function Closed(current: Current): Current {
    current.(closed := true, token := None, announcer := None)
  }

  predicate Finds(current: Current, running: Option<string>, token: Token) {
    current.token.Some? && Opens(current.token.value, running) && current.token.value.token == token
  }

  /** While an address is announced and there is a token, the last announcement is of that token there. */
  predicate Tells(current: Current) {
    current.announcer.Some? && current.token.Some? ==>
      current.announced != []
      && current.announced[|current.announced| - 1]
         == Announcement(current.announcer.value, current.token.value.token)
  }

  /** What every operation keeps. */
  predicate Sound(current: Current) {
    && (current.closed ==> current.token == None)
    && (current.token.Some? ==> current.token.value.token < current.drawn)
    && Tells(current)
  }

  class RoundTokens {
    var token: Option<RoundToken>
    var closed: bool
    var announcer: Option<string>
    var drawn: nat
    var announced: seq<Announcement>

    function Now(): Current
      reads this
    {
      Current(token, closed, announcer, drawn, announced)
    }

    predicate Valid()
      reads this
    {
      Sound(Now())
    }

    constructor ()
      ensures Valid() && Now() == Current(None, false, None, 0, [])
    {
      token, closed, announcer, drawn, announced := None, false, None, 0, [];
    }

    method Announce(address: string, announce: Token)
      modifies this`announced
      ensures announced == old(announced) + [Announcement(address, announce)]
    {
      announced := announced + [Announcement(address, announce)];
    }

    method Random() returns (drawnNow: Token)
      modifies this`drawn
      ensures drawnNow == old(drawn) && drawn == old(drawn) + 1
    {
      drawnNow := drawn;
      drawn := drawn + 1;
    }

    /** Gives the token to the running round, and announces it when it or its round changed. */
    method Renew(running: Option<string>)
      requires Valid()
      modifies this
      ensures Valid() && Now() == Renewed(old(Now()), running)
      ensures closed || (token.Some? && token.value.round == running)
    {
      if closed {
        return;
      }
      if token.Some? && token.value.round == running {
        return;
      }
      if token.Some? && token.value.round == None {
        token := Some(token.value.(round := running));
      } else {
        var next := Random();
        token := Some(RoundToken(running, next));
      }
      if announcer.Some? {
        Announce(announcer.value, token.value.token);
      }
    }

    /** The token of the running round `round`; none when it does not run or the tokens are closed. */
    method TokenOf(running: Option<string>, round: string) returns (r: Option<Token>)
      requires Valid()
      modifies this
      ensures Valid() && Now() == Renewed(old(Now()), running)
      ensures r.Some? <==> !closed && running == Some(round)
      ensures r.Some? ==> token == Some(RoundToken(Some(round), r.value))
    {
      Renew(running);
      if token.Some? && token.value.round == Some(round) {
        return Some(token.value.token);
      }
      return None;
    }

    method AnnounceTo(to: Option<string>)
      requires Valid()
      modifies this
      ensures Valid() && Now() == AnnouncedTo(old(Now()), to)
    {
      if to.Some? && token.Some? {
        Announce(to.value, token.value.token);
      }
      announcer := to;
    }

    method Close()
      requires Valid()
      modifies this
      ensures Valid() && Now() == Closed(old(Now()))
    {
      closed := true;
      token := None;
      announcer := None;
    }

    /** Whether `presented` opens the page, once `running` was read as the running round. */
    method Find(running: Option<string>, presented: Token) returns (found: bool)
      ensures found <==> Finds(Now(), running, presented)
    {
      found := token.Some? && Opens(token.value, running) && token.value.token == presented;
    }

    /** The token for the round that starts next, while no round runs. */
    method AfterReset(running: Option<string>) returns (r: Option<Token>)
      requires Valid()
      modifies this
      ensures Valid() && Now() == Renewed(old(Now()), running)
      ensures r.Some? <==> !closed && running == None
      ensures r.Some? ==> token == Some(RoundToken(None, r.value))
      ensures r.Some? && old(token).Some? && old(token).value.round.Some? ==> r.value != old(token).value.token
    {
      Renew(running);
      if token.Some? && token.value.round == None {
        return Some(token.value.token);
      }
      return None;
    }
  }

  // Runs.

  /** A find that opened the page: its token, the round it read as running, and the token's round. */
  datatype Opening = Opening(token: Token, read: Option<string>, round: Option<string>)

  datatype World = World(
    current: Current, running: Option<string>, finding: map<nat, Option<string>>, openings: seq<Opening>)

  datatype Step =
    | RoundChanges(running: Option<string>)
    | Renews
    | AnnouncesTo(announcer: Option<string>)
    | Closes
    | FindReads(find: nat)
    | FindLocks(find: nat, token: Token)

  /** A step; `TokenOf` and `AfterReset` change what `Renew` does. */
  function Take(world: World, step: Step): World {
    match step
    case RoundChanges(running) => world.(running := running)
    case Renews => world.(current := Renewed(world.current, world.running))
    case AnnouncesTo(announcer) => world.(current := AnnouncedTo(world.current, announcer))
    case Closes => world.(current := Closed(world.current))
    case FindReads(find) => world.(finding := world.finding[find := world.running])
    case FindLocks(find, token) =>
      if find in world.finding && Finds(world.current, world.finding[find], token) then
        world.(openings := world.openings + [Opening(token, world.finding[find], world.current.token.value.round)])
      else world
  }

  function Run(world: World, steps: seq<Step>): World
    decreases |steps|
  {
    if steps == [] then world else Run(Take(world, steps[0]), steps[1..])
  }

  function Start(running: Option<string>): World {
    World(Current(None, false, None, 0, []), running, map[], [])
  }

  predicate IsCurrent(world: World, token: Token) {
    world.current.token.Some? && world.current.token.value.token == token
  }

  /** What every run keeps. */
  ghost predicate Good(world: World) {
    && Sound(world.current)
    && (forall i :: 0 <= i < |world.openings| ==> OpenedGood(world, world.openings[i]))
    && (forall i, j :: 0 <= i < |world.openings| && 0 <= j < |world.openings| ==>
          OneRound(world.openings[i], world.openings[j]))
  }

  ghost predicate OpenedGood(world: World, opening: Opening) {
    && opening.token < world.current.drawn
    && (opening.round == None || opening.round == opening.read)
    && (IsCurrent(world, opening.token) && opening.round.Some? ==> world.current.token.value.round == opening.round)
  }

  /** A token that opened two rounds opened one. */
  predicate OneRound(first: Opening, second: Opening) {
    first.token == second.token && first.round.Some? && second.round.Some? ==> first.round == second.round
  }

  lemma TakeKeepsGood(world: World, step: Step)
    requires Good(world)
    ensures Good(Take(world, step))
  {
    var next := Take(world, step);
    forall i | 0 <= i < |next.openings|
      ensures OpenedGood(next, next.openings[i])
    {
      if i < |world.openings| {
        assert OpenedGood(world, world.openings[i]);
      }
    }
    forall i, j | 0 <= i < |next.openings| && 0 <= j < |next.openings|
      ensures OneRound(next.openings[i], next.openings[j])
    {
      if i < |world.openings| {
        assert OpenedGood(world, world.openings[i]);
      }
      if j < |world.openings| {
        assert OpenedGood(world, world.openings[j]);
      }
    }
  }

  lemma {:induction false} RunKeepsGood(world: World, steps: seq<Step>)
    requires Good(world)
    ensures Good(Run(world, steps))
    decreases |steps|
  {
    if steps != [] {
      TakeKeepsGood(world, steps[0]);
      RunKeepsGood(Take(world, steps[0]), steps[1..]);
    }
  }

  /**
   Over every run: the last announced address carries the current token; a token opened the page only
   for the round its find read as running, or before any round had it; and no token opened two rounds.
   */
  lemma {:induction false} EveryRunIsGood(running: Option<string>, steps: seq<Step>)
    ensures Good(Run(Start(running), steps))
  {
    RunKeepsGood(Start(running), steps);
  }

  /** The token once it is given to a round, or while none runs: it stays, is given to the round, or is replaced. */
  ghost predicate IsGivenTo(current: Current, running: Option<string>, next: Current) {
    && next.token.Some? && next.token.value.round == running
    && (if current.token.Some? && (current.token.value.round == None || current.token.value.round == running)
        then next.token.value.token == current.token.value.token && next.drawn == current.drawn
        else next.token.value.token == current.drawn && next.drawn == current.drawn + 1)
  }

  /**
   What every step does to the tokens. One address is announced when there is an announcer and a token, and
   the announcer is set or the token changes; and none otherwise.
   */
  lemma {:induction false} TokensBecome(world: World, step: Step)
    requires Good(world)
    ensures var current, next := world.current, Take(world, step).current;
      && (if step.Renews? && !current.closed then IsGivenTo(current, world.running, next)
          else if step.Closes? then next.token == None
          else next.token == current.token && next.drawn == current.drawn)
      && next.closed == (current.closed || step.Closes?)
      && next.announcer == (if step.AnnouncesTo? then step.announcer else if step.Closes? then None
                            else current.announcer)
      && next.announced == current.announced +
         if next.announcer.Some? && next.token.Some? && (step.AnnouncesTo? || next.token != current.token)
         then [Announcement(next.announcer.value, next.token.value.token)] else []
  {
    var current, next := world.current, Take(world, step).current;
    assert current.announced + [] == current.announced;
  }

  /** A token that is not current, or has its round, stays so: only fresh tokens come. */
  ghost predicate Settled(world: World, token: Token, round: Option<string>) {
    token < world.current.drawn
    && (IsCurrent(world, token) ==> round.Some? && world.current.token.value.round == round)
  }

  lemma {:induction false} SettledStays(world: World, steps: seq<Step>, token: Token, round: Option<string>)
    requires Good(world) && Settled(world, token, round)
    ensures Settled(Run(world, steps), token, round)
    decreases |steps|
  {
    if steps != [] {
      TakeKeepsGood(world, steps[0]);
      SettledStays(Take(world, steps[0]), steps[1..], token, round);
    }
  }

  /** A token once given to a round is never given to another. */
  lemma {:induction false} TokenKeepsItsRound(world: World, steps: seq<Step>, token: Token, round: string)
    requires Good(world) && world.current.token == Some(RoundToken(Some(round), token))
    ensures IsCurrent(Run(world, steps), token) ==> Run(world, steps).current.token.value.round == Some(round)
  {
    SettledStays(world, steps, token, Some(round));
  }

  /** A token replaced, or closed, opens nothing ever again, whatever a find read before. */
  lemma {:induction false} ReplacedOpensNothing(world: World, steps: seq<Step>, later: seq<Step>, token: Token,
        read: Option<string>)
    requires Good(world) && IsCurrent(world, token) && !IsCurrent(Run(world, steps), token)
    ensures !Finds(Run(Run(world, steps), later).current, read, token)
  {
    RunKeepsGood(world, steps);
    DrawsGrow(world, steps);
    SettledStays(Run(world, steps), later, token, None);
  }

  lemma {:induction false} DrawsGrow(world: World, steps: seq<Step>)
    ensures world.current.drawn <= Run(world, steps).current.drawn
    decreases |steps|
  {
    if steps != [] {
      DrawsGrow(Take(world, steps[0]), steps[1..]);
    }
  }

  /** Once closed, no token opens the page, and no address is announced. */
  lemma {:induction false} ClosedStaysClosed(world: World, steps: seq<Step>)
    requires Good(world) && world.current.closed
    ensures var after := Run(world, steps);
      after.current.closed && after.current.announced == world.current.announced && after.openings == world.openings
    decreases |steps|
  {
    if steps != [] {
      TakeKeepsGood(world, steps[0]);
      ClosedStaysClosed(Take(world, steps[0]), steps[1..]);
    }
  }

  predicate HasNoAnnouncer(steps: seq<Step>) {
    forall i :: 0 <= i < |steps| ==> steps[i].AnnouncesTo? ==> steps[i].announcer == None
  }

  /** Once announced to nowhere, no address is announced until an announcer is set again. */
  lemma {:induction false} NowhereAnnouncesNothing(world: World, steps: seq<Step>)
    requires world.current.announcer == None && HasNoAnnouncer(steps)
    ensures var after := Run(world, steps);
      after.current.announcer == None && after.current.announced == world.current.announced
    decreases |steps|
  {
    if steps != [] {
      var step := steps[0];
      assert step.AnnouncesTo? ==> step.announcer == None;
      NowhereAnnouncesNothing(Take(world, step), steps[1..]);
    }
  }

  /**
   The token made while no round ran belongs to the round that starts, so the page that started it stays
   connected, for as long as that round runs and the tokens are not closed.
   */
  lemma {:induction false} RoundKeepsItsToken(world: World, steps: seq<Step>, token: Token, round: string)
    requires IsCurrent(world, token) && world.current.token.value.round in {None, Some(round)} && !world.current.closed
    requires world.running == Some(round)
    requires forall i :: 0 <= i < |steps| ==> !steps[i].Closes? && !steps[i].RoundChanges?
    ensures Finds(Run(world, steps).current, Some(round), token)
    decreases |steps|
  {
    if steps != [] {
      assert !steps[0].Closes? && !steps[0].RoundChanges?;
      RoundKeepsItsToken(Take(world, steps[0]), steps[1..], token, round);
    }
  }

  // Finds in flight.

  lemma {:induction false} RunBoth(world: World, steps: seq<Step>, more: seq<Step>)
    ensures Run(world, steps + more) == Run(Run(world, steps), more)
    decreases |steps|
  {
    if steps == [] {
      assert steps + more == more;
    } else {
      assert (steps + more)[1..] == steps[1..] + more;
      RunBoth(Take(world, steps[0]), steps[1..], more);
    }
  }

  /** Whether the `n`-th step is the last in which the find reads the running round. */
  predicate LastRead(steps: seq<Step>, find: nat, n: nat) {
    n < |steps| && steps[n] == FindReads(find) && forall k :: n < k < |steps| ==> steps[k] != FindReads(find)
  }

  /** Whether the find read `round` as running, and no other round since. */
  ghost predicate ReadsRound(world: World, steps: seq<Step>, find: nat, round: Option<string>) {
    exists n: nat :: LastRead(steps, find, n) && Run(world, steps[..n]).running == round
  }

  /** What a find holds as the running round is what ran when it read it last. */
  lemma {:induction false} FindHoldsItsRead(world: World, steps: seq<Step>, find: nat, round: Option<string>)
    requires find !in world.finding
    ensures find in Run(world, steps).finding && Run(world, steps).finding[find] == round
       <==> ReadsRound(world, steps, find, round)
    decreases |steps|
  {
    if steps != [] {
      var before, last := steps[..|steps| - 1], steps[|steps| - 1];
      assert steps == before + [last];
      RunBoth(world, before, [last]);
      assert Run(Run(world, before), [last]) == Take(Run(world, before), last);
      FindHoldsItsRead(world, before, find, round);
      if last == FindReads(find) {
        assert LastRead(steps, find, |before|) && steps[..|before|] == before;
        assert forall n :: LastRead(steps, find, n) ==> n == |before|;
      } else {
        forall n: nat | n < |before|
          ensures LastRead(before, find, n) <==> LastRead(steps, find, n)
          ensures before[..n] == steps[..n]
        {
          if LastRead(before, find, n) {
            assert forall k :: n < k < |steps| ==> steps[k] == if k < |before| then before[k] else last;
          } else if before[n] == FindReads(find) {
            var k :| n < k < |before| && before[k] == FindReads(find);
            assert steps[k] == before[k];
          }
        }
        if ReadsRound(world, before, find, round) {
          var n: nat :| LastRead(before, find, n) && Run(world, before[..n]).running == round;
          assert LastRead(steps, find, n) && steps[..n] == before[..n];
        }
        if ReadsRound(world, steps, find, round) {
          var n: nat :| LastRead(steps, find, n) && Run(world, steps[..n]).running == round;
          assert n < |before| && LastRead(before, find, n) && before[..n] == steps[..n];
        }
      }
    }
  }

  /** Whether a find that locks now with `token` opens the page for `round`. */
  predicate OpensFor(world: World, find: nat, token: Token, round: string) {
    Take(world, FindLocks(find, token)).openings == world.openings + [Opening(token, Some(round), Some(round))]
  }

  /**
   Over every run, a find opens the page with the token of a round, running or not, if and only if that
   round ran when the find read it last, and the round's token is still the current one.
   */
  lemma {:induction false} OpensForRoundIff(running: Option<string>, steps: seq<Step>, find: nat, token: Token,
                                            round: string)
    ensures var world := Run(Start(running), steps);
      var current := world.current.token == Some(RoundToken(Some(round), token));
      OpensFor(world, find, token, round) <==> ReadsRound(Start(running), steps, find, Some(round)) && current
  {
    var world := Run(Start(running), steps);
    FindHoldsItsRead(Start(running), steps, find, Some(round));
    var opening := Opening(token, Some(round), Some(round));
    if OpensFor(world, find, token, round) {
      assert (world.openings + [opening])[|world.openings|] == opening;
      assert |world.openings + [opening]| == |world.openings| + 1;
      var made := Opening(token, world.finding[find], world.current.token.value.round);
      assert (world.openings + [made])[|world.openings|] == made;
    }
  }

  /** The token of a round opens the page after the round ended, for a find that read it before. */
  lemma {:induction false} EndedRoundOpensInFlight()
    ensures var steps := [Renews, FindReads(0), RoundChanges(None), FindLocks(0, 0)];
      var world := Run(Start(Some("r")), steps);
      world.running == None && world.openings == [Opening(0, Some("r"), Some("r"))]
  {
    var start := Start(Some("r"));
    var renewed := Take(start, Renews);
    var found := Take(renewed, FindReads(0));
    var ended := Take(found, RoundChanges(None));
    var located := Take(ended, FindLocks(0, 0));
    assert located.openings == [Opening(0, Some("r"), Some("r"))];
    assert Run(located, []) == located;
    RunBoth(start, [Renews, FindReads(0)], [RoundChanges(None), FindLocks(0, 0)]);
    assert [Renews, FindReads(0)] + [RoundChanges(None), FindLocks(0, 0)]
        == [Renews, FindReads(0), RoundChanges(None), FindLocks(0, 0)];
    assert [Renews, FindReads(0)][1..] == [FindReads(0)] && [FindReads(0)][1..] == [];
    assert [RoundChanges(None), FindLocks(0, 0)][1..] == [FindLocks(0, 0)] && [FindLocks(0, 0)][1..] == [];
  }

  /**
   A find that reads the running round while a round does not run, so after it ended, opens nothing with
   the token of that round, even before the next token is made.
   */
  lemma {:induction false} EndedRoundOpensNothing(world: World, steps: seq<Step>, find: nat, n: nat, token: Token,
                                                  round: string)
    requires Good(world) && world.current.token == Some(RoundToken(Some(round), token))
    requires LastRead(steps, find, n) && Run(world, steps[..n]).running != Some(round)
    ensures Take(Run(world, steps), FindLocks(find, token)) == Run(world, steps)
  {
    TokenKeepsItsRound(world, steps, token, round);
    var after := Take(Run(world, steps[..n]), steps[n]);
    assert steps == steps[..n] + ([steps[n]] + steps[n + 1..]);
    RunBoth(world, steps[..n], [steps[n]] + steps[n + 1..]);
    assert ([steps[n]] + steps[n + 1..])[1..] == steps[n + 1..];
    FindKeepsItsRead(after, steps[n + 1..], find);
  }

  lemma {:induction false} FindKeepsItsRead(world: World, steps: seq<Step>, find: nat)
    requires find in world.finding && forall k :: 0 <= k < |steps| ==> steps[k] != FindReads(find)
    ensures find in Run(world, steps).finding && Run(world, steps).finding[find] == world.finding[find]
    decreases |steps|
  {
    if steps != [] {
      assert steps[0] != FindReads(find);
      FindKeepsItsRead(Take(world, steps[0]), steps[1..], find);
    }
  }

  /** The first renewal after a round ended closes its token to every find, in flight or not. */
  lemma {:induction false} RenewalClosesEndedRound(world: World, steps: seq<Step>, token: Token, round: string,
                                                   read: Option<string>)
    requires Good(world) && world.current.token == Some(RoundToken(Some(round), token))
    requires world.running != Some(round)
    ensures !Finds(Run(Take(world, Renews), steps).current, read, token)
  {
    TakeKeepsGood(world, Renews);
    SettledStays(Take(world, Renews), steps, token, None);
  }
}
