/** Askers and the one carrier of a link: who waits for what reply, and what becomes of all who
    wait when the carrier ends, whatever order their steps come in. */
module Links {
  import opened Wrappers

  const IDS: nat := 0x1_0000_0000

  /** What a reply says of the request it answers. */
  datatype Reply = Reply(request: Option<nat>, said: nat)

  /** The one place an asker's answer comes by: the sender still somewhere, the answer in it, or
      the sender dropped. */
  datatype Channel = Open | Answered(reply: Reply) | Cut

  /** Where an asker is between minting its id and being done. */
  datatype Phase = Minted | Inserted | Waiting | TimedOut | Dead | Done(answer: Option<Reply>)

  datatype Asker = Asker(id: nat, phase: Phase, channel: Channel)

  datatype Carrier = Carrying | Sending(asker: nat, reply: Reply) | Stored | Ended

  datatype State = State(minted: nat, askers: seq<Asker>, waiting: map<nat, nat>, alive: bool, carrier: Carrier)

  datatype Event =
    | Mint | Insert(asker: nat) | Check(asker: nat) | Receive(asker: nat) | TimeOut(asker: nat) | Forget(asker: nat)
    | Take(reply: Reply) | Send | Store | Clear

  /** Ids are of thirty-two bits and come round again. */
  function IdOf(minted: nat): (id: nat)
    ensures id < IDS
  {
    (1 + minted) % IDS
  }

  predicate In(state: State, asker: nat, phase: Phase) {
    asker < |state.askers| && state.askers[asker].phase == phase
  }

  predicate Enabled(state: State, event: Event) {
    match event
    case Mint => true
    case Insert(asker) => In(state, asker, Minted)
    case Check(asker) => In(state, asker, Inserted)
    case Receive(asker) => In(state, asker, Waiting) && !state.askers[asker].channel.Open?
    case TimeOut(asker) => In(state, asker, Waiting) && state.askers[asker].channel.Open?
    case Forget(asker) => In(state, asker, TimedOut) || In(state, asker, Dead)
    case Take(_) => state.carrier == Carrying
    case Send => state.carrier.Sending?
    case Store => state.carrier == Carrying
    case Clear => state.carrier == Stored
  }

  function With(state: State, asker: nat, phase: Phase): State
    requires asker < |state.askers|
  {
    state.(askers := state.askers[asker := state.askers[asker].(phase := phase)])
  }

  /** A sender dropped: the asker that waits on it is cut off, unless its answer is in already. */
  function Dropped(askers: seq<Asker>, asker: nat): (dropped: seq<Asker>)
    ensures |dropped| == |askers|
  {
    if asker < |askers| && askers[asker].channel.Open? then askers[asker := askers[asker].(channel := Cut)] else askers
  }

  /** An id given up by whoever waits under it. */
  function Removed(state: State, id: nat): State {
    if id in state.waiting then
      state.(waiting := state.waiting - {id}, askers := Dropped(state.askers, state.waiting[id]))
    else state
  }

  /** Every asker still waited for cut off. */
  function AllDropped(askers: seq<Asker>, waiting: map<nat, nat>): (dropped: seq<Asker>)
    ensures |dropped| == |askers|
    ensures forall k | 0 <= k < |askers| ::
      dropped[k] == if k in waiting.Values && askers[k].channel.Open? then askers[k].(channel := Cut) else askers[k]
  {
    seq(|askers|, k requires 0 <= k < |askers| =>
      if k in waiting.Values && askers[k].channel.Open? then askers[k].(channel := Cut) else askers[k])
  }

  /** Which asker a reply is for, where it names an id that can be one and somebody waits under it. */
  function AddressedTo(state: State, reply: Reply): Option<nat> {
    if reply.request.Some? && 1 <= reply.request.value < IDS && reply.request.value in state.waiting
    then Some(state.waiting[reply.request.value]) else None
  }

  function Next(state: State, event: Event): (next: State)
    requires Enabled(state, event)
  {
    match event
    case Mint => state.(minted := state.minted + 1, askers := state.askers + [Asker(IdOf(state.minted), Minted, Open)])
    case Insert(asker) =>
      var id := state.askers[asker].id;
      With(Removed(state, id), asker, Inserted).(waiting := Removed(state, id).waiting[id := asker])
    case Check(asker) => With(state, asker, if state.alive then Waiting else Dead)
    case Receive(asker) =>
      var channel := state.askers[asker].channel;
      With(state, asker, Done(if channel.Answered? then Some(channel.reply) else None))
    case TimeOut(asker) => With(state, asker, TimedOut)
    case Forget(asker) => With(Removed(state, state.askers[asker].id), asker, Done(None))
    case Take(reply) =>
      var to := AddressedTo(state, reply);
      if to.None? then state
      else state.(waiting := state.waiting - {reply.request.value}, carrier := Sending(to.value, reply))
    case Send =>
      var asker := state.carrier.asker;
      state.(
        carrier := Carrying,
        askers := if asker < |state.askers| && state.askers[asker].channel.Open?
          then state.askers[asker := state.askers[asker].(channel := Answered(state.carrier.reply))] else state.askers)
    case Store => state.(alive := false, carrier := Stored)
    case Clear => state.(askers := AllDropped(state.askers, state.waiting), waiting := map[], carrier := Ended)
  }

  // ---------------------------------------------------------------- what every step keeps

  /** Where an asker's sender may be while nothing has come of it. */
  ghost predicate SenderSomewhere(state: State, k: nat)
    requires k < |state.askers|
  {
    || state.askers[k].phase.Minted?
    || (state.askers[k].id in state.waiting && state.waiting[state.askers[k].id] == k)
    || (state.carrier.Sending? && state.carrier.asker == k)
  }

  /** An asker has no answer but one that names its id, and none before it is waited for. */
  ghost predicate AskerSound(state: State, k: nat)
    requires k < |state.askers|
  {
    var asker := state.askers[k];
    && asker.id == IdOf(k)
    && (asker.channel.Open? && !asker.phase.Done? ==> SenderSomewhere(state, k))
    && (asker.channel.Answered? ==> asker.channel.reply.request == Some(asker.id))
    && (asker.phase.Done? && asker.phase.answer.Some? ==> asker.phase.answer.value.request == Some(asker.id))
    && (asker.phase.Minted? ==> asker.channel.Open?)
    && (asker.phase.Dead? ==> !state.alive)
  }

  ghost predicate EntrySound(state: State, id: nat)
    requires id in state.waiting
  {
    && state.waiting[id] < |state.askers| && state.askers[state.waiting[id]].id == id
    && !state.askers[state.waiting[id]].phase.Minted?
    && state.askers[state.waiting[id]].channel.Open?
    && (state.carrier.Sending? ==> state.carrier.asker != state.waiting[id])
    && (state.carrier.Ended? ==>
         state.askers[state.waiting[id]].phase.Inserted? || state.askers[state.waiting[id]].phase.Dead?)
  }

  ghost predicate Sound(state: State) {
    && state.minted == |state.askers|
    && (forall k | 0 <= k < |state.askers| :: AskerSound(state, k))
    && (forall id | id in state.waiting :: EntrySound(state, id))
    && (state.carrier.Stored? || state.carrier.Ended? ==> !state.alive)
    && (state.carrier.Sending? ==>
          && state.carrier.asker < |state.askers| && state.askers[state.carrier.asker].channel.Open?
          && !state.askers[state.carrier.asker].phase.Minted?
          && state.carrier.reply.request == Some(state.askers[state.carrier.asker].id))
  }

  function Begin(): State {
    State(0, [], map[], true, Carrying)
  }

  lemma SoundKept(state: State, event: Event)
    requires Sound(state) && Enabled(state, event)
    ensures Sound(Next(state, event))
  {
    match event
    case Mint => MintKeeps(state);
    case Insert(asker) => InsertKeeps(state, asker);
    case Check(asker) => CheckKeeps(state, asker);
    case Receive(asker) => ReceiveKeeps(state, asker);
    case TimeOut(asker) => TimeOutKeeps(state, asker);
    case Forget(asker) => ForgetKeeps(state, asker);
    case Take(reply) => TakeKeeps(state, reply);
    case Send => SendKeeps(state);
    case Store => StoreKeeps(state);
    case Clear => ClearKeeps(state);
  }

  lemma MintKeeps(state: State)
    requires Sound(state)
    ensures Sound(Next(state, Mint))
  {
    var next := Next(state, Mint);
    forall k | 0 <= k < |next.askers| ensures AskerSound(next, k) {
      assert k < |state.askers| ==> AskerSound(state, k);
    }
    forall id | id in next.waiting ensures EntrySound(next, id) {
      assert EntrySound(state, id);
    }
  }

  lemma InsertKeeps(state: State, asker: nat)
    requires Sound(state) && Enabled(state, Insert(asker))
    ensures Sound(Next(state, Insert(asker)))
  {
    var next := Next(state, Insert(asker));
    var id := state.askers[asker].id;
    assert AskerSound(state, asker);
    assert id in state.waiting ==> EntrySound(state, id);
    forall k | 0 <= k < |next.askers| ensures AskerSound(next, k) {
      assert AskerSound(state, k);
    }
    forall other | other in next.waiting ensures EntrySound(next, other) {
      if other != id {
        assert EntrySound(state, other);
      }
    }
  }

  lemma CheckKeeps(state: State, asker: nat)
    requires Sound(state) && Enabled(state, Check(asker))
    ensures Sound(Next(state, Check(asker)))
  {
    var next := Next(state, Check(asker));
    forall k | 0 <= k < |next.askers| ensures AskerSound(next, k) {
      assert AskerSound(state, k);
    }
    forall id | id in next.waiting ensures EntrySound(next, id) {
      assert EntrySound(state, id);
    }
  }

  lemma ReceiveKeeps(state: State, asker: nat)
    requires Sound(state) && Enabled(state, Receive(asker))
    ensures Sound(Next(state, Receive(asker)))
  {
    var next := Next(state, Receive(asker));
    forall k | 0 <= k < |next.askers| ensures AskerSound(next, k) {
      assert AskerSound(state, k);
    }
    forall id | id in next.waiting ensures EntrySound(next, id) {
      assert EntrySound(state, id);
    }
  }

  lemma TimeOutKeeps(state: State, asker: nat)
    requires Sound(state) && Enabled(state, TimeOut(asker))
    ensures Sound(Next(state, TimeOut(asker)))
  {
    var next := Next(state, TimeOut(asker));
    assert AskerSound(state, asker);
    forall k | 0 <= k < |next.askers| ensures AskerSound(next, k) {
      assert AskerSound(state, k);
    }
    forall id | id in next.waiting ensures EntrySound(next, id) {
      assert EntrySound(state, id);
    }
  }

  lemma ForgetKeeps(state: State, asker: nat)
    requires Sound(state) && Enabled(state, Forget(asker))
    ensures Sound(Next(state, Forget(asker)))
  {
    var next := Next(state, Forget(asker));
    var id := state.askers[asker].id;
    assert id in state.waiting ==> EntrySound(state, id);
    forall k | 0 <= k < |next.askers| ensures AskerSound(next, k) {
      assert AskerSound(state, k);
    }
    forall other | other in next.waiting ensures EntrySound(next, other) {
      assert EntrySound(state, other);
    }
  }

  lemma TakeKeeps(state: State, reply: Reply)
    requires Sound(state) && Enabled(state, Take(reply))
    ensures Sound(Next(state, Take(reply)))
  {
    var next := Next(state, Take(reply));
    if AddressedTo(state, reply).Some? {
      assert EntrySound(state, reply.request.value);
      forall k | 0 <= k < |next.askers| ensures AskerSound(next, k) {
        assert AskerSound(state, k);
      }
      forall id | id in next.waiting ensures EntrySound(next, id) {
        assert EntrySound(state, id);
      }
    }
  }

  lemma SendKeeps(state: State)
    requires Sound(state) && Enabled(state, Send)
    ensures Sound(Next(state, Send))
  {
    var next := Next(state, Send);
    forall k | 0 <= k < |next.askers| ensures AskerSound(next, k) {
      assert AskerSound(state, k);
    }
    forall id | id in next.waiting ensures EntrySound(next, id) {
      assert EntrySound(state, id);
    }
  }

  lemma StoreKeeps(state: State)
    requires Sound(state) && Enabled(state, Store)
    ensures Sound(Next(state, Store))
  {
    var next := Next(state, Store);
    forall k | 0 <= k < |next.askers| ensures AskerSound(next, k) {
      assert AskerSound(state, k);
    }
    forall id | id in next.waiting ensures EntrySound(next, id) {
      assert EntrySound(state, id);
    }
  }

  lemma ClearKeeps(state: State)
    requires Sound(state) && Enabled(state, Clear)
    ensures Sound(Next(state, Clear))
  {
    var next := Next(state, Clear);
    forall k | 0 <= k < |next.askers| ensures AskerSound(next, k) {
      assert AskerSound(state, k);
      if state.askers[k].channel.Open? && !state.askers[k].phase.Done? && !state.askers[k].phase.Minted? {
        assert k in state.waiting.Values by {
          assert state.waiting[state.askers[k].id] == k;
        }
      }
      if k in state.waiting.Values {
        var id :| id in state.waiting && state.waiting[id] == k;
        assert EntrySound(state, id);
      }
    }
  }

  // ---------------------------------------------------------------- whole runs

  ghost predicate Allowed(state: State, events: seq<Event>)
    decreases |events|
  {
    events == [] || (Enabled(state, events[0]) && Allowed(Next(state, events[0]), events[1..]))
  }

  function After(state: State, events: seq<Event>): State
    requires Allowed(state, events)
    decreases |events|
  {
    if events == [] then state else After(Next(state, events[0]), events[1..])
  }

  lemma BeginSound()
    ensures Sound(Begin())
  {
  }

  lemma {:induction false} AlwaysSound(state: State, events: seq<Event>)
    requires Sound(state) && Allowed(state, events)
    ensures Sound(After(state, events))
    decreases |events|
  {
    if events != [] {
      SoundKept(state, events[0]);
      AlwaysSound(Next(state, events[0]), events[1..]);
    }
  }

  /** Once the carrier has ended nobody is left blocked: whoever waits has an answer or has been
      cut off, insert and check against store and clear having no gap between them. */
  lemma NobodyLeftBlocked(events: seq<Event>, k: nat)
    requires Allowed(Begin(), events) && After(Begin(), events).carrier.Ended?
    requires In(After(Begin(), events), k, Waiting)
    ensures Enabled(After(Begin(), events), Receive(k)) && !Enabled(After(Begin(), events), TimeOut(k))
  {
    var state := After(Begin(), events);
    BeginSound();
    AlwaysSound(Begin(), events);
    assert AskerSound(state, k);
    assert state.askers[k].id in state.waiting ==> EntrySound(state, state.askers[k].id);
  }

  /** And whoever is not yet waiting comes to the end of asking by its own steps alone, no
      timeout among them. */
  lemma EveryoneEnds(state: State, k: nat) returns (steps: seq<Event>)
    requires Sound(state) && state.carrier.Ended? && k < |state.askers|
    ensures Allowed(state, steps) && k < |After(state, steps).askers| && After(state, steps).askers[k].phase.Done?
    ensures |steps| <= 3 && TimeOut(k) !in steps
  {
    assert AskerSound(state, k);
    match state.askers[k].phase
    case Minted =>
      var one := Next(state, Insert(k));
      var two := Next(one, Check(k));
      steps := [Insert(k), Check(k), Forget(k)];
      ThreeSteps(state, Insert(k), Check(k), Forget(k));
    case Inserted =>
      steps := [Check(k), Forget(k)];
      TwoSteps(state, Check(k), Forget(k));
    case Waiting =>
      assert state.askers[k].id in state.waiting ==> EntrySound(state, state.askers[k].id);
      steps := [Receive(k)];
      OneStep(state, Receive(k));
    case TimedOut =>
      steps := [Forget(k)];
      OneStep(state, Forget(k));
    case Dead =>
      steps := [Forget(k)];
      OneStep(state, Forget(k));
    case Done(_) =>
      steps := [];
  }

  lemma OneStep(state: State, event: Event)
    requires Enabled(state, event)
    ensures Allowed(state, [event]) && After(state, [event]) == Next(state, event)
  {
    assert [event][1..] == [];
  }

  lemma TwoSteps(state: State, one: Event, two: Event)
    requires Enabled(state, one) && Enabled(Next(state, one), two)
    ensures Allowed(state, [one, two]) && After(state, [one, two]) == Next(Next(state, one), two)
  {
    OneStep(Next(state, one), two);
    assert [one, two][1..] == [two];
  }

  lemma ThreeSteps(state: State, one: Event, two: Event, three: Event)
    requires Enabled(state, one) && Enabled(Next(state, one), two) && Enabled(Next(Next(state, one), two), three)
    ensures Allowed(state, [one, two, three])
    ensures After(state, [one, two, three]) == Next(Next(Next(state, one), two), three)
  {
    TwoSteps(Next(state, one), two, three);
    assert [one, two, three][1..] == [two, three];
  }

  /** An answer reaches only who minted the id it names. */
  lemma AnswersTheirOwn(events: seq<Event>, k: nat)
    requires Allowed(Begin(), events) && k < |After(Begin(), events).askers|
    ensures
      var asker := After(Begin(), events).askers[k];
      asker.phase.Done? && asker.phase.answer.Some? ==> asker.phase.answer.value.request == Some(IdOf(k))
  {
    BeginSound();
    AlwaysSound(Begin(), events);
    assert AskerSound(After(Begin(), events), k);
  }

  /** Two askers share an id only where more than every id was minted between them. */
  lemma IdsApart(one: nat, other: nat)
    requires one < other
    ensures IdOf(one) == IdOf(other) ==> other - one >= IDS
  {
  }

  /** What has come of an asker's wait never changes: no second answer, and none after a cut. */
  lemma ComesOnce(state: State, event: Event, k: nat)
    requires Sound(state) && Enabled(state, event) && k < |state.askers|
    ensures k < |Next(state, event).askers|
    ensures !state.askers[k].channel.Open? ==> Next(state, event).askers[k].channel == state.askers[k].channel
    ensures state.askers[k].phase.Done? ==> Next(state, event).askers[k].phase == state.askers[k].phase
  {
  }
}
