/** A source handed over to the thread that fills from it, and the one it replaces handed back:
    two rings of a few places, one thread at either end of each. */
module Handovers {
  const SOURCES_HANDED_AT_ONCE: nat := 1
  const SOURCES_SPENT_AT_ONCE: nat := 2

  /** What the filling thread is about: nothing, having seen room on the way back, or with a source
      just replaced in its hands. */
  datatype Filling = Idle | Roomy | Replaced(spent: nat)

  /** The source being filled from, what is on the way in either ring, what the handing thread let
      go of and was refused, and, in order, all it handed over and all that were filled from. */
  datatype State = State(
    source: nat, handed: seq<nat>, spent: seq<nat>, filling: Filling,
    dropped: seq<nat>, refused: seq<nat>, given: seq<nat>, filledFrom: seq<nat>)

  datatype Event = LooksBack | Takes | GivesBack | Hands(source: nat) | LetsGo

  predicate Allowed(state: State, event: Event) {
    match event
    case LooksBack => state.filling.Idle?
    case Takes => state.filling.Roomy?
    case GivesBack => state.filling.Replaced?
    case Hands(_) => true
    case LetsGo => state.spent != []
  }

  /** Whether a push onto a ring of so many places goes through. */
  predicate Pushes(ring: seq<nat>, places: nat) {
    |ring| < places
  }

  function After(state: State, event: Event): (after: State)
    requires Allowed(state, event)
  {
    match event
    case LooksBack =>
      if Pushes(state.spent, SOURCES_SPENT_AT_ONCE) then state.(filling := Roomy) else state
    case Takes =>
      if state.handed == [] then state.(filling := Idle)
      else
        state.(source := state.handed[0], handed := state.handed[1..], filling := Replaced(state.source),
               filledFrom := state.filledFrom + [state.handed[0]])
    case GivesBack =>
      if Pushes(state.spent, SOURCES_SPENT_AT_ONCE) then
        state.(spent := state.spent + [state.filling.spent], filling := Idle)
      else state.(filling := Idle)
    case Hands(source) =>
      if Pushes(state.handed, SOURCES_HANDED_AT_ONCE) then
        state.(handed := state.handed + [source], given := state.given + [source])
      else state.(refused := state.refused + [source])
    case LetsGo =>
      state.(spent := state.spent[1..], dropped := state.dropped + [state.spent[0]])
  }

  function InHand(filling: Filling): (held: seq<nat>) {
    if filling.Replaced? then [filling.spent] else []
  }

  /** Every source handed over is in one place, in the order they were handed over: let go of, on
      the way back, in the filling thread's hands, filled from, or on the way there. */
  ghost predicate Sound(state: State) {
    && state.filledFrom == state.dropped + state.spent + InHand(state.filling) + [state.source]
    && state.given == state.filledFrom + state.handed
    && |state.handed| <= SOURCES_HANDED_AT_ONCE
    && |state.spent| <= if state.filling.Idle? then SOURCES_SPENT_AT_ONCE else SOURCES_SPENT_AT_ONCE - 1
  }

  function FedFrom(source: nat): (start: State) {
    State(source, [], [], Idle, [], [], [source], [source])
  }

  lemma StepKeeps(state: State, event: Event)
    requires Sound(state) && Allowed(state, event)
    ensures Sound(After(state, event))
  {
    match event
    case LooksBack =>
    case Takes => TakingKeeps(state);
    case GivesBack => GivingBackKeeps(state);
    case Hands(source) => HandingKeeps(state, source);
    case LetsGo => LettingGoKeeps(state);
  }

  lemma TakingKeeps(state: State)
    requires Sound(state) && Allowed(state, Takes)
    ensures Sound(After(state, Takes))
  {
    if state.handed != [] {
      assert state.handed == [state.handed[0]] + state.handed[1..];
    }
  }

  lemma GivingBackKeeps(state: State)
    requires Sound(state) && Allowed(state, GivesBack)
    ensures Sound(After(state, GivesBack))
  {
    assert state.dropped + state.spent + [state.filling.spent]
      == state.dropped + (state.spent + [state.filling.spent]) + [];
  }

  lemma HandingKeeps(state: State, source: nat)
    requires Sound(state) && Allowed(state, Hands(source))
    ensures Sound(After(state, Hands(source)))
  {
    assert state.filledFrom + state.handed + [source] == state.filledFrom + (state.handed + [source]);
  }

  lemma LettingGoKeeps(state: State)
    requires Sound(state) && Allowed(state, LetsGo)
    ensures Sound(After(state, LetsGo))
  {
    assert state.spent == [state.spent[0]] + state.spent[1..];
  }

  predicate AllAllowed(state: State, events: seq<Event>)
    decreases |events|
  {
    events == [] || (Allowed(state, events[0]) && AllAllowed(After(state, events[0]), events[1..]))
  }

  function AfterAll(state: State, events: seq<Event>): (after: State)
    requires AllAllowed(state, events)
    decreases |events|
  {
    if events == [] then state else AfterAll(After(state, events[0]), events[1..])
  }

  /** However the two threads take turns, no source is lost or in two places. */
  lemma {:induction false} AlwaysSound(state: State, events: seq<Event>)
    requires Sound(state) && AllAllowed(state, events)
    ensures Sound(AfterAll(state, events))
    decreases |events|
  {
    if events != [] {
      StepKeeps(state, events[0]);
      AlwaysSound(After(state, events[0]), events[1..]);
    }
  }

  predicate OfFilling(event: Event) {
    event.LooksBack? || event.Takes? || event.GivesBack?
  }

  /** The filling thread lets go of no source: what is dropped and refused stays as it was. */
  lemma FillingDropsNothing(state: State, event: Event)
    requires Allowed(state, event) && OfFilling(event)
    ensures After(state, event).dropped == state.dropped && After(state, event).refused == state.refused
    ensures After(state, event).given == state.given
  {
  }

  /** However they take turns, what the filling thread hands back goes through, and nothing it does
      next drops a source. */
  lemma HandingBackGoesThrough(source: nat, events: seq<Event>)
    requires AllAllowed(FedFrom(source), events)
    ensures var end := AfterAll(FedFrom(source), events);
      && (end.filling.Replaced? ==> Pushes(end.spent, SOURCES_SPENT_AT_ONCE))
      && forall event | OfFilling(event) && Allowed(end, event) ::
           After(end, event).dropped == end.dropped && After(end, event).refused == end.refused
  {
    AlwaysSound(FedFrom(source), events);
    var end := AfterAll(FedFrom(source), events);
    forall event | OfFilling(event) && Allowed(end, event)
      ensures After(end, event).dropped == end.dropped && After(end, event).refused == end.refused
    {
      FillingDropsNothing(end, event);
    }
  }

  /** Sources that are each handed over once are each in one place only, and filled from in the
      order they were handed over. */
  lemma EachInOnePlace(source: nat, events: seq<Event>)
    requires AllAllowed(FedFrom(source), events)
    ensures var end := AfterAll(FedFrom(source), events);
      && multiset(end.given)
         == multiset(end.dropped) + multiset(end.spent) + multiset(InHand(end.filling)) + multiset{end.source}
            + multiset(end.handed)
      && end.filledFrom <= end.given
  {
    AlwaysSound(FedFrom(source), events);
    var end := AfterAll(FedFrom(source), events);
    assert multiset([end.source]) == multiset{end.source};
  }

  /** A source on its way in is filled from once the way back has room and the filling thread has
      looked. */
  lemma HandedIsTaken(state: State)
    requires Sound(state) && state.filling.Idle? && state.handed != []
    requires Pushes(state.spent, SOURCES_SPENT_AT_ONCE)
    ensures AllAllowed(state, [LooksBack, Takes, GivesBack])
    ensures var after := AfterAll(state, [LooksBack, Takes, GivesBack]);
      && after.source == state.handed[0] && after.spent == state.spent + [state.source]
      && after.filling.Idle? && after.handed == []
  {
    var looked := After(state, LooksBack);
    var taken := After(looked, Takes);
    var given := After(taken, GivesBack);
    assert [LooksBack, Takes, GivesBack][1..] == [Takes, GivesBack];
    assert [Takes, GivesBack][1..] == [GivesBack] && [GivesBack][1..] == [];
    assert AllAllowed(taken, [GivesBack]) && AfterAll(taken, [GivesBack]) == given;
    assert AllAllowed(looked, [Takes, GivesBack]) && AfterAll(looked, [Takes, GivesBack]) == given;
  }
}
