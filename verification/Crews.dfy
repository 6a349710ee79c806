/** One producer feeds pieces to many stages at once: pieces are gathered into slabs, every
    slab is queued for every stage's lane, and tasks of a crew drain the lanes. What each
    producer's step and each task's step does, whatever order they come in. */
module Crews {
  import opened Banks
  import opened Filtering
  import opened Splitting
  import opened Wrappers

  type Piece = seq<real>

  const BYTES_A_SAMPLE: nat := 4

  datatype Slab = Slab(pieces: seq<Piece>) {
    function Bytes(): nat {
      BYTES_A_SAMPLE * |Joined(pieces)|
    }
  }

  /** The most that may be queued, and how much is gathered before it is sent. */
  datatype Limits = Limits(bytes: nat, samples: nat)

  /** A stage's lane. Besides what the lane holds: which task was last spawned for it, how many
      slabs it has received, popped, heard and let go of so far, and what its stage has been
      given to note. */
  datatype Lane = Lane(
    alike: bool, queue: seq<nat>, draining: bool, locked: bool, drainer: nat, received: nat, popped: nat, hears: nat,
    letGo: nat, noted: seq<Piece>)

  datatype Phase = Spawned | Looked | Popped(slab: nat) | Heard(slab: nat) | Released

  datatype Task = Task(lane: nat, phase: Phase)

  datatype Producer = Gathering | Waiting(last: bool) | Pushing(at: nat, last: bool) | Settling | Joining | Done

  datatype State = State(
    lanes: seq<Lane>, tasks: map<nat, Task>, spawned: nat, sent: seq<Slab>, refs: seq<nat>, bytes: int,
    producer: Producer, gathered: seq<Piece>, fed: seq<Piece>, cancelled: bool)

  datatype Event =
    | Feed(piece: Piece) | Ends | Room | Push | Pushed | StopSeen | Settle | Join
    | Look(task: nat, stopped: bool) | Pop(task: nat) | Hear(task: nat) | LetGo(task: nat) | Finish(task: nat)

  // ---------------------------------------------------------------- steps

  predicate HasRoom(limits: Limits, state: State) {
    state.bytes == 0 || state.bytes + Slab(state.gathered).Bytes() <= limits.bytes
  }

  predicate Enabled(limits: Limits, state: State, event: Event) {
    match event
    case Feed(_) => state.producer == Gathering
    case Ends => state.producer == Gathering
    case Room => state.producer.Waiting? && HasRoom(limits, state)
    case Push => state.producer.Pushing? && state.producer.at < |state.lanes|
    case Pushed => state.producer.Pushing? && state.producer.at == |state.lanes|
    case StopSeen => state.producer == Settling
    case Settle => state.producer == Settling && state.bytes == 0
    case Join => state.producer == Joining && state.tasks == map[]
    case Look(task, _) => At(state, task, Spawned)
    case Pop(task) => At(state, task, Looked) && !state.lanes[state.tasks[task].lane].locked
    case Hear(task) => InLane(state, task) && state.tasks[task].phase.Popped?
    case LetGo(task) => InLane(state, task) && state.tasks[task].phase.Heard?
    case Finish(task) => At(state, task, Released)
  }

  predicate InLane(state: State, task: nat) {
    task in state.tasks && state.tasks[task].lane < |state.lanes|
  }

  predicate At(state: State, task: nat, phase: Phase) {
    InLane(state, task) && state.tasks[task].phase == phase
  }

  function Next(limits: Limits, state: State, event: Event): (next: State)
    requires Enabled(limits, state, event)
  {
    match event
    case Feed(piece) => Fed(limits, state, piece)
    case Ends =>
      if state.gathered == [] then state.(producer := Settling) else state.(producer := Waiting(true))
    case Room => Charged(state)
    case Push => PushedTo(state, state.producer.at)
    case Pushed =>
      Dropped(state, |state.sent| - 1).(producer := if state.producer.last then Settling else Gathering)
    case StopSeen => state.(cancelled := true)
    case Settle => state.(producer := Joining)
    case Join => state.(producer := Done)
    case Look(task, stopped) =>
      WithPhase(state.(cancelled := state.cancelled || stopped), task, Looked)
    case Pop(task) => PoppedBy(state, task)
    case Hear(task) => HeardBy(state, task)
    case LetGo(task) => LetGoBy(state, task)
    case Finish(task) => FinishedBy(state, task)
  }

  function Fed(limits: Limits, state: State, piece: Piece): State {
    var gathered := state.gathered + [piece];
    state.(
      gathered := gathered, fed := state.fed + [piece],
      producer := if |Joined(gathered)| >= limits.samples then Waiting(false) else Gathering)
  }

  /** The slab gathered is charged, and the producer holds it until it is in every lane. */
  function Charged(state: State): State
    requires state.producer.Waiting?
  {
    state.(
      bytes := state.bytes + Slab(state.gathered).Bytes(), sent := state.sent + [Slab(state.gathered)],
      refs := state.refs + [1], gathered := [], producer := Pushing(0, state.producer.last))
  }

  /** The slab in one more lane, with a task to drain the lane where it has none. */
  function PushedTo(state: State, at: nat): State
    requires state.producer.Pushing? && at < |state.lanes|
  {
    var lane, slab := state.lanes[at], |state.sent| - 1;
    if slab < 0 || slab >= |state.refs| then state
    else
      state.(
        lanes := state.lanes[at := lane.(
          queue := lane.queue + [slab], draining := true, received := lane.received + 1,
          drainer := if lane.draining then lane.drainer else state.spawned)],
        refs := state.refs[slab := state.refs[slab] + 1],
        tasks := if lane.draining then state.tasks else state.tasks[state.spawned := Task(at, Spawned)],
        spawned := if lane.draining then state.spawned else state.spawned + 1,
        producer := Pushing(at + 1, state.producer.last))
  }

  /** One hold on a slab let go of; the last of them frees what it was charged. */
  function Dropped(state: State, slab: int): State {
    if slab < 0 || slab >= |state.refs| || slab >= |state.sent| || state.refs[slab] == 0 then state
    else
      state.(
        refs := state.refs[slab := state.refs[slab] - 1],
        bytes := if state.refs[slab] == 1 then state.bytes - state.sent[slab].Bytes() else state.bytes)
  }

  function WithPhase(state: State, task: nat, phase: Phase): State
    requires InLane(state, task)
  {
    state.(tasks := state.tasks[task := Task(state.tasks[task].lane, phase)])
  }

  function WithLane(state: State, task: nat, lane: Lane): State
    requires InLane(state, task)
  {
    state.(lanes := state.lanes[state.tasks[task].lane := lane])
  }

  function LaneOf(state: State, task: nat): Lane
    requires InLane(state, task)
  {
    state.lanes[state.tasks[task].lane]
  }

  function PoppedBy(state: State, task: nat): State
    requires InLane(state, task)
  {
    var lane := LaneOf(state, task);
    if lane.queue == [] then WithPhase(WithLane(state, task, lane.(locked := false)), task, Released)
    else
      WithPhase(WithLane(state, task, Popping(lane)), task, Popped(lane.queue[0]))
  }

  function Popping(lane: Lane): Lane
    requires lane.queue != []
  {
    lane.(locked := true, queue := lane.queue[1..], popped := lane.popped + 1)
  }

  /** What a stage is given of a slab: the whole of it at once where any pieces are alike to
      it, and otherwise each piece as it was fed. */
  function Given(alike: bool, slab: Slab): seq<Piece> {
    if alike then [Joined(slab.pieces)] else slab.pieces
  }

  function HeardBy(state: State, task: nat): State
    requires InLane(state, task) && state.tasks[task].phase.Popped?
  {
    var lane, slab := LaneOf(state, task), state.tasks[task].phase.slab;
    if state.cancelled || slab >= |state.sent| then WithPhase(state, task, Heard(slab))
    else
      WithPhase(WithLane(state, task, Noting(lane, state.sent[slab])), task, Heard(slab))
  }

  function Noting(lane: Lane, slab: Slab): Lane {
    lane.(hears := lane.hears + 1, noted := lane.noted + Given(lane.alike, slab))
  }

  function LetGoBy(state: State, task: nat): State
    requires InLane(state, task) && state.tasks[task].phase.Heard?
  {
    var lane, slab := LaneOf(state, task), state.tasks[task].phase.slab;
    Dropped(WithPhase(WithLane(state, task, LettingGo(lane)), task, Released), slab)
  }

  function LettingGo(lane: Lane): Lane {
    lane.(locked := false, letGo := lane.letGo + 1)
  }

  /** The lane is left where nothing waits in it, and otherwise drained by another task. */
  function FinishedBy(state: State, task: nat): State
    requires InLane(state, task)
  {
    var lane := LaneOf(state, task);
    if lane.queue == [] then WithLane(state, task, lane.(draining := false)).(tasks := state.tasks - {task})
    else
      WithLane(state, task, lane.(drainer := state.spawned)).(
        tasks := (state.tasks - {task})[state.spawned := Task(state.tasks[task].lane, Spawned)],
        spawned := state.spawned + 1)
  }

  // ---------------------------------------------------------------- what every step keeps

  function Range(from: nat, to: nat): (range: seq<nat>)
    requires from <= to
    ensures |range| == to - from && forall k {:trigger range[k]} | 0 <= k < to - from :: range[k] == from + k
  {
    seq(to - from, k requires 0 <= k < to - from => from + k)
  }

  /** How many slabs a lane has been pushed. */
  function Pushes(producer: Producer, sent: nat, i: nat): int {
    if producer.Pushing? && i >= producer.at then sent - 1 else sent
  }

  /** A lane has heard every slab up to a point, or was cancelled before it. */
  ghost predicate Kept(cancelled: bool, lane: Lane, upto: nat) {
    lane.hears <= upto && (!cancelled ==> lane.hears == upto)
  }

  /** Nothing of a lane is in a task's hands. */
  ghost predicate Idle(cancelled: bool, lane: Lane) {
    !lane.locked && lane.letGo == lane.popped && Kept(cancelled, lane, lane.popped)
  }

  /** What the one task that drains a lane has in its hands. */
  ghost predicate Drains(cancelled: bool, lane: Lane, phase: Phase) {
    match phase
    case Spawned => lane.queue != [] && Idle(cancelled, lane)
    case Looked => lane.queue != [] && Idle(cancelled, lane)
    case Popped(slab) => lane.locked && lane.letGo == slab && lane.popped == slab + 1 && Kept(cancelled, lane, slab)
    case Heard(slab) => lane.locked && lane.letGo == slab && lane.popped == slab + 1 && Kept(cancelled, lane, slab + 1)
    case Released => Idle(cancelled, lane)
  }

  /** The queue is just what was received and not yet popped, in order. */
  ghost predicate LaneSound(lane: Lane, sent: nat, pushes: int) {
    && lane.letGo <= lane.popped <= lane.received == pushes <= sent
    && lane.queue == Range(lane.popped, lane.received)
  }

  /** A lane has exactly one task exactly while it is draining, and nothing waits in a lane
      that has none. */
  ghost predicate LanesSound(state: State) {
    && Queued(state) && Tended(state) && Quiet(state) && Tasked(state)
    && (state.producer.Pushing? ==> 0 < |state.sent| && state.producer.at <= |state.lanes|)
  }

  ghost predicate Queued(state: State) {
    forall i | 0 <= i < |state.lanes| ::
      LaneSound(state.lanes[i], |state.sent|, Pushes(state.producer, |state.sent|, i))
  }

  ghost predicate Tended(state: State) {
    forall i | 0 <= i < |state.lanes| && state.lanes[i].draining ::
      state.lanes[i].drainer in state.tasks && state.tasks[state.lanes[i].drainer].lane == i
  }

  ghost predicate Quiet(state: State) {
    forall i | 0 <= i < |state.lanes| && !state.lanes[i].draining ::
      state.lanes[i].queue == [] && Idle(state.cancelled, state.lanes[i])
  }

  ghost predicate Tasked(state: State) {
    forall task | task in state.tasks :: TaskSound(state, task)
  }

  ghost predicate TaskSound(state: State, task: nat)
    requires task in state.tasks
  {
    && task < state.spawned && state.tasks[task].lane < |state.lanes|
    && LaneOf(state, task).draining && LaneOf(state, task).drainer == task
    && Drains(state.cancelled, LaneOf(state, task), state.tasks[task].phase)
  }

  lemma LanesKept(limits: Limits, state: State, event: Event)
    requires LanesSound(state) && |state.refs| == |state.sent| && Enabled(limits, state, event)
    ensures LanesSound(Next(limits, state, event))
  {
    match event
    case Feed(piece) => Unmoved(state, Next(limits, state, event));
    case Ends => Unmoved(state, Next(limits, state, event));
    case Room => Unmoved(state, Next(limits, state, event));
    case Push => PushKeeps(limits, state);
    case Pushed => Unmoved(state, Next(limits, state, event));
    case StopSeen => CancelKeeps(state, true);
    case Settle => Unmoved(state, Next(limits, state, event));
    case Join => Unmoved(state, Next(limits, state, event));
    case Look(task, stopped) => LookKeeps(limits, state, task, stopped);
    case Pop(task) => PopKeeps(limits, state, task);
    case Hear(task) => HearKeeps(limits, state, task);
    case LetGo(task) => LetGoKeeps(limits, state, task);
    case Finish(task) => FinishKeeps(limits, state, task);
  }

  /** A step that touches no lane and no task, and does not undo a cancelling. */
  lemma Unmoved(state: State, next: State)
    requires LanesSound(state) && next.lanes == state.lanes
    requires next.tasks == state.tasks && next.spawned == state.spawned
    requires state.cancelled ==> next.cancelled
    requires |next.sent| == |state.sent| + if next.producer.Pushing? then 1 else 0
    requires next.producer.Pushing? ==> next.producer.at == 0
    requires state.producer.Pushing? ==> state.producer.at == |state.lanes|
    ensures LanesSound(next)
  {
    forall i | 0 <= i < |next.lanes|
      ensures LaneSound(next.lanes[i], |next.sent|, Pushes(next.producer, |next.sent|, i)) {
      assert LaneSound(state.lanes[i], |state.sent|, Pushes(state.producer, |state.sent|, i));
    }
    forall task | task in next.tasks ensures TaskSound(next, task) {
      assert TaskSound(state, task);
    }
  }

  lemma CancelKeeps(state: State, cancelled: bool)
    requires LanesSound(state) && (state.cancelled ==> cancelled)
    ensures LanesSound(state.(cancelled := cancelled))
  {
    var next := state.(cancelled := cancelled);
    forall task | task in next.tasks ensures TaskSound(next, task) {
      assert TaskSound(state, task);
    }
  }

  /** A step of one task and its lane that neither spawns nor ends one. */
  lemma StepKeeps(state: State, task: nat, lane: Lane, phase: Phase)
    requires LanesSound(state) && InLane(state, task)
    requires lane.draining && lane.drainer == task && Drains(state.cancelled, lane, phase)
    requires LaneSound(lane, |state.sent|, Pushes(state.producer, |state.sent|, state.tasks[task].lane))
    ensures LanesSound(WithPhase(WithLane(state, task, lane), task, phase))
  {
    var next := WithPhase(WithLane(state, task, lane), task, phase);
    assert TaskSound(state, task);
    QueuedElsewhere(state, next, state.tasks[task].lane);
    forall other | other in next.tasks ensures TaskSound(next, other) {
      assert TaskSound(state, other);
    }
  }

  lemma QueuedElsewhere(state: State, next: State, at: nat)
    requires Queued(state) && |next.lanes| == |state.lanes| && at < |state.lanes|
    requires |next.sent| == |state.sent|
    requires forall i | 0 <= i < |state.lanes| && i != at ::
      next.lanes[i] == state.lanes[i]
      && Pushes(next.producer, |next.sent|, i) == Pushes(state.producer, |state.sent|, i)
    requires LaneSound(next.lanes[at], |next.sent|, Pushes(next.producer, |next.sent|, at))
    ensures Queued(next)
  {
    forall i | 0 <= i < |next.lanes|
      ensures LaneSound(next.lanes[i], |next.sent|, Pushes(next.producer, |next.sent|, i)) {
      assert LaneSound(state.lanes[i], |state.sent|, Pushes(state.producer, |state.sent|, i));
    }
  }

  lemma LookKeeps(limits: Limits, state: State, task: nat, stopped: bool)
    requires LanesSound(state) && Enabled(limits, state, Look(task, stopped))
    ensures LanesSound(Next(limits, state, Look(task, stopped)))
  {
    var looked := state.(cancelled := state.cancelled || stopped);
    CancelKeeps(state, looked.cancelled);
    assert TaskSound(looked, task);
    StepKeeps(looked, task, LaneOf(looked, task), Looked);
    assert WithLane(looked, task, LaneOf(looked, task)) == looked;
  }

  lemma PopKeeps(limits: Limits, state: State, task: nat)
    requires LanesSound(state) && Enabled(limits, state, Pop(task))
    ensures LanesSound(PoppedBy(state, task)) && LaneOf(state, task).queue != []
  {
    assert TaskSound(state, task);
    var lane := LaneOf(state, task);
    PoppedSound(state.cancelled, lane, |state.sent|, Pushes(state.producer, |state.sent|, state.tasks[task].lane));
    StepKeeps(state, task, Popping(lane), Popped(lane.queue[0]));
  }

  lemma PoppedSound(cancelled: bool, lane: Lane, sent: nat, pushes: int)
    requires LaneSound(lane, sent, pushes) && Drains(cancelled, lane, Looked)
    ensures LaneSound(Popping(lane), sent, pushes) && Drains(cancelled, Popping(lane), Popped(lane.queue[0]))
  {
    assert Popping(lane).queue == Range(lane.popped + 1, lane.received);
  }

  lemma HearKeeps(limits: Limits, state: State, task: nat)
    requires LanesSound(state) && Enabled(limits, state, Hear(task))
    ensures LanesSound(HeardBy(state, task))
  {
    assert TaskSound(state, task);
    var lane, slab := LaneOf(state, task), state.tasks[task].phase.slab;
    assert LaneSound(lane, |state.sent|, Pushes(state.producer, |state.sent|, state.tasks[task].lane));
    if state.cancelled {
      StepKeeps(state, task, lane, Heard(slab));
      assert state.lanes[state.tasks[task].lane := lane] == state.lanes;
    } else {
      StepKeeps(state, task, Noting(lane, state.sent[slab]), Heard(slab));
    }
  }

  lemma LetGoKeeps(limits: Limits, state: State, task: nat)
    requires LanesSound(state) && Enabled(limits, state, LetGo(task))
    ensures LanesSound(LetGoBy(state, task))
  {
    assert TaskSound(state, task);
    var lane, slab := LaneOf(state, task), state.tasks[task].phase.slab;
    LetGoSound(state.cancelled, lane, |state.sent|, Pushes(state.producer, |state.sent|, state.tasks[task].lane), slab);
    StepKeeps(state, task, LettingGo(lane), Released);
    DropKeeps(WithPhase(WithLane(state, task, LettingGo(lane)), task, Released), slab);
  }

  lemma LetGoSound(cancelled: bool, lane: Lane, sent: nat, pushes: int, slab: nat)
    requires LaneSound(lane, sent, pushes) && Drains(cancelled, lane, Heard(slab))
    ensures LaneSound(LettingGo(lane), sent, pushes) && Drains(cancelled, LettingGo(lane), Released)
  {
  }

  /** Letting go of a slab touches no lane and no task. */
  lemma DropKeeps(state: State, slab: int)
    requires LanesSound(state)
    ensures LanesSound(Dropped(state, slab))
  {
    var next := Dropped(state, slab);
    forall task | task in next.tasks ensures TaskSound(next, task) {
      assert TaskSound(state, task);
    }
  }

  lemma PushKeeps(limits: Limits, state: State)
    requires LanesSound(state) && |state.refs| == |state.sent| && Enabled(limits, state, Push)
    ensures LanesSound(Next(limits, state, Push))
  {
    var next, at := Next(limits, state, Push), state.producer.at;
    var lane := state.lanes[at];
    assert LaneSound(lane, |state.sent|, Pushes(state.producer, |state.sent|, at));
    PushedSound(lane, |state.sent|, next.lanes[at]);
    QueuedElsewhere(state, next, at);
    PushTended(limits, state);
    PushTasked(limits, state);
  }

  lemma PushedSound(lane: Lane, sent: nat, pushed: Lane)
    requires LaneSound(lane, sent, sent - 1) && 0 < sent && pushed.letGo == lane.letGo && pushed.popped == lane.popped
    requires pushed.received == lane.received + 1 && pushed.queue == lane.queue + [sent - 1]
    ensures LaneSound(pushed, sent, sent)
  {
    assert pushed.queue == Range(lane.popped, lane.received + 1);
  }

  lemma PushTended(limits: Limits, state: State)
    requires LanesSound(state) && |state.refs| == |state.sent| && Enabled(limits, state, Push)
    ensures Tended(Next(limits, state, Push)) && Quiet(Next(limits, state, Push))
  {
    var next := Next(limits, state, Push);
    forall i | 0 <= i < |next.lanes| && next.lanes[i].draining
      ensures next.lanes[i].drainer in next.tasks && next.tasks[next.lanes[i].drainer].lane == i
    {
      if state.lanes[i].draining {
        assert state.lanes[i].drainer in state.tasks && TaskSound(state, state.lanes[i].drainer);
      }
    }
  }

  lemma PushTasked(limits: Limits, state: State)
    requires LanesSound(state) && |state.refs| == |state.sent| && Enabled(limits, state, Push)
    ensures Tasked(Next(limits, state, Push))
  {
    var next := Next(limits, state, Push);
    forall task | task in next.tasks ensures TaskSound(next, task) {
      if task in state.tasks {
        assert TaskSound(state, task);
      }
    }
  }

  lemma FinishKeeps(limits: Limits, state: State, task: nat)
    requires LanesSound(state) && Enabled(limits, state, Finish(task))
    ensures LanesSound(Next(limits, state, Finish(task)))
  {
    var next := Next(limits, state, Finish(task));
    assert TaskSound(state, task);
    forall j | 0 <= j < |next.lanes|
      ensures LaneSound(next.lanes[j], |next.sent|, Pushes(next.producer, |next.sent|, j)) {
      assert LaneSound(state.lanes[j], |state.sent|, Pushes(state.producer, |state.sent|, j));
    }
    if LaneOf(state, task).queue == [] {
      Ended(state, next, task);
    } else {
      Respawned(state, next, task);
    }
  }

  lemma Ended(state: State, next: State, task: nat)
    requires LanesSound(state) && InLane(state, task) && LaneOf(state, task).queue == []
    requires state.tasks[task].phase == Released && next == FinishedBy(state, task)
    ensures Tended(next) && Quiet(next) && Tasked(next)
  {
    assert TaskSound(state, task);
    forall other | other in next.tasks ensures TaskSound(next, other) {
      assert TaskSound(state, other);
    }
  }

  lemma Respawned(state: State, next: State, task: nat)
    requires LanesSound(state) && InLane(state, task) && LaneOf(state, task).queue != []
    requires state.tasks[task].phase == Released && next == FinishedBy(state, task)
    ensures Tended(next) && Quiet(next) && Tasked(next)
  {
    assert TaskSound(state, task);
    forall other | other in next.tasks ensures TaskSound(next, other) {
      if other in state.tasks {
        assert TaskSound(state, other);
      }
    }
  }

  /** What a stage is given of the first slabs. */
  function GivenUpto(alike: bool, sent: seq<Slab>, upto: nat): seq<Piece>
    requires upto <= |sent|
  {
    if upto == 0 then [] else GivenUpto(alike, sent, upto - 1) + Given(alike, sent[upto - 1])
  }

  /** Every stage has noted just the first slabs, as many as it has heard. */
  ghost predicate NotesSound(state: State) {
    forall i | 0 <= i < |state.lanes| :: NoteSound(state.lanes[i], state.sent)
  }

  ghost predicate NoteSound(lane: Lane, sent: seq<Slab>) {
    lane.hears <= |sent| && lane.noted == GivenUpto(lane.alike, sent, lane.hears)
  }

  lemma {:induction false} GivenAlike(alike: bool, sent: seq<Slab>, more: seq<Slab>, upto: nat)
    requires upto <= |sent| <= |more| && forall k | 0 <= k < upto :: more[k] == sent[k]
    ensures GivenUpto(alike, more, upto) == GivenUpto(alike, sent, upto)
  {
    if upto > 0 {
      GivenAlike(alike, sent, more, upto - 1);
    }
  }

  ghost predicate SameNotes(one: Lane, other: Lane) {
    one.alike == other.alike && one.hears == other.hears && one.noted == other.noted
  }

  lemma NotesKept(limits: Limits, state: State, event: Event)
    requires LanesSound(state) && NotesSound(state) && Enabled(limits, state, event)
    ensures NotesSound(Next(limits, state, event))
  {
    var next := Next(limits, state, event);
    if event.Hear? {
      HearNotes(limits, state, event.task);
    } else if event.Room? {
      forall i | 0 <= i < |next.lanes| ensures NoteSound(next.lanes[i], next.sent) {
        assert NoteSound(state.lanes[i], state.sent);
        GivenAlike(state.lanes[i].alike, state.sent, next.sent, state.lanes[i].hears);
      }
    } else {
      NotesUnmoved(limits, state, event);
      forall i | 0 <= i < |next.lanes| ensures NoteSound(next.lanes[i], next.sent) {
        assert NoteSound(state.lanes[i], state.sent) && SameNotes(state.lanes[i], next.lanes[i]);
      }
    }
  }

  lemma NotesUnmoved(limits: Limits, state: State, event: Event)
    requires Enabled(limits, state, event) && !event.Hear? && !event.Room?
    ensures var next := Next(limits, state, event);
      next.sent == state.sent && |next.lanes| == |state.lanes|
      && forall i | 0 <= i < |state.lanes| :: SameNotes(state.lanes[i], next.lanes[i])
  {
    if OfTask(event) {
      TaskLeavesNotes(limits, state, event);
    }
  }

  lemma TaskLeavesNotes(limits: Limits, state: State, event: Event)
    requires Enabled(limits, state, event) && OfTask(event) && !event.Hear?
    ensures var next := Next(limits, state, event);
      next.sent == state.sent && |next.lanes| == |state.lanes|
      && forall i | 0 <= i < |state.lanes| :: SameNotes(state.lanes[i], next.lanes[i])
  {
  }

  lemma HearNotes(limits: Limits, state: State, task: nat)
    requires LanesSound(state) && NotesSound(state) && Enabled(limits, state, Hear(task))
    ensures NotesSound(Next(limits, state, Hear(task)))
  {
    var next, at := Next(limits, state, Hear(task)), state.tasks[task].lane;
    assert TaskSound(state, task);
    assert LaneSound(state.lanes[at], |state.sent|, Pushes(state.producer, |state.sent|, at));
    forall i | 0 <= i < |next.lanes| ensures NoteSound(next.lanes[i], next.sent) {
      assert NoteSound(state.lanes[i], state.sent);
    }
  }

  // ---------------------------------------------------------------- what is charged

  function Has(lane: Lane, slab: nat): nat {
    if lane.letGo <= slab < lane.received then 1 else 0
  }

  /** How many of the first lanes hold a slab, waiting in them or in the hands of their task. */
  function Holders(lanes: seq<Lane>, slab: nat, upto: nat): (holders: nat)
    requires upto <= |lanes|
  {
    if upto == 0 then 0 else Holders(lanes, slab, upto - 1) + Has(lanes[upto - 1], slab)
  }

  function HeldByProducer(producer: Producer, sent: nat, slab: nat): nat {
    if producer.Pushing? && slab + 1 == sent then 1 else 0
  }

  lemma {:induction false} HoldersChanged(lanes: seq<Lane>, at: nat, lane: Lane, slab: nat, upto: nat)
    requires at < |lanes| && upto <= |lanes|
    ensures Holders(lanes[at := lane], slab, upto)
      == Holders(lanes, slab, upto) + if at < upto then Has(lane, slab) - Has(lanes[at], slab) else 0
  {
    if upto > 0 {
      HoldersChanged(lanes, at, lane, slab, upto - 1);
    }
  }

  /** The bytes of the slabs still held somewhere. */
  function Live(sent: seq<Slab>, refs: seq<nat>, upto: nat): (bytes: nat)
    requires upto <= |sent| && upto <= |refs|
  {
    if upto == 0 then 0 else Live(sent, refs, upto - 1) + if refs[upto - 1] > 0 then sent[upto - 1].Bytes() else 0
  }

  lemma {:induction false} LiveChanged(sent: seq<Slab>, refs: seq<nat>, slab: nat, count: nat, upto: nat)
    requires upto <= |sent| == |refs| && slab < |refs|
    ensures Live(sent, refs[slab := count], upto) == Live(sent, refs, upto)
      + if slab >= upto || (count > 0 <==> refs[slab] > 0) then 0
        else if count > 0 then sent[slab].Bytes() else 0 - sent[slab].Bytes()
  {
    if upto > 0 {
      LiveChanged(sent, refs, slab, count, upto - 1);
    }
  }

  lemma {:induction false} LiveAlike(sent: seq<Slab>, refs: seq<nat>, more: seq<Slab>, refsMore: seq<nat>, upto: nat)
    requires upto <= |sent| <= |more| && upto <= |refs| <= |refsMore|
    requires forall k | 0 <= k < upto :: more[k] == sent[k] && refsMore[k] == refs[k]
    ensures Live(more, refsMore, upto) == Live(sent, refs, upto)
  {
    if upto > 0 {
      LiveAlike(sent, refs, more, refsMore, upto - 1);
    }
  }

  /** Every slab counts just those that hold it, and what is charged is just what the slabs
      held come to. */
  ghost predicate ChargesSound(state: State) {
    && |state.refs| == |state.sent|
    && (forall k | 0 <= k < |state.sent| :: RefsAt(state, k))
    && state.bytes == Live(state.sent, state.refs, |state.sent|)
  }

  ghost predicate RefsAt(state: State, k: nat)
    requires k < |state.refs|
  {
    state.refs[k] == HeldByProducer(state.producer, |state.sent|, k) + Holders(state.lanes, k, |state.lanes|)
  }

  lemma ChargesKept(limits: Limits, state: State, event: Event)
    requires LanesSound(state) && ChargesSound(state) && Enabled(limits, state, event)
    ensures ChargesSound(Next(limits, state, event))
  {
    match event
    case Room => RoomCharges(limits, state);
    case Push => PushCharges(limits, state);
    case Pushed => PushedCharges(limits, state);
    case LetGo(task) => LetGoCharges(limits, state, task);
    case Pop(task) => LaneCharges(limits, state, event, task);
    case Hear(task) => LaneCharges(limits, state, event, task);
    case Finish(task) => LaneCharges(limits, state, event, task);
    case _ => ChargesUnmoved(state, Next(limits, state, event));
  }

  /** A task takes a slab up, hears it or finishes, and no slab is let go. */
  lemma LaneCharges(limits: Limits, state: State, event: Event, task: nat)
    requires LanesSound(state) && ChargesSound(state) && Enabled(limits, state, event)
    requires event == Pop(task) || event == Hear(task) || event == Finish(task)
    ensures ChargesSound(Next(limits, state, event))
  {
    var next, at := Next(limits, state, event), state.tasks[task].lane;
    ChargesElsewhere(state, next, at, next.lanes[at]);
  }

  lemma ChargesUnmoved(state: State, next: State)
    requires ChargesSound(state) && next.lanes == state.lanes && next.sent == state.sent && next.refs == state.refs
    requires next.bytes == state.bytes && !state.producer.Pushing? == !next.producer.Pushing?
    ensures ChargesSound(next)
  {
    forall k | 0 <= k < |next.sent| ensures RefsAt(next, k) {
      assert RefsAt(state, k);
    }
  }

  /** One lane changed in what it holds of no slab. */
  lemma ChargesElsewhere(state: State, next: State, at: nat, lane: Lane)
    requires ChargesSound(state) && at < |state.lanes| && next.lanes == state.lanes[at := lane]
    requires next.sent == state.sent && next.refs == state.refs && next.bytes == state.bytes
    requires next.producer == state.producer
    requires lane.letGo == state.lanes[at].letGo && lane.received == state.lanes[at].received
    ensures ChargesSound(next)
  {
    forall k | 0 <= k < |next.sent| ensures RefsAt(next, k) {
      assert RefsAt(state, k);
      HoldersChanged(state.lanes, at, lane, k, |state.lanes|);
    }
  }

  lemma RoomCharges(limits: Limits, state: State)
    requires LanesSound(state) && ChargesSound(state) && Enabled(limits, state, Room)
    ensures ChargesSound(Next(limits, state, Room))
  {
    var next, n := Next(limits, state, Room), |state.sent|;
    forall k | 0 <= k < n + 1 ensures RefsAt(next, k) {
      if k < n {
        assert RefsAt(state, k);
      } else {
        NotReceivedYet(state, n, |state.lanes|);
      }
    }
    LiveAlike(state.sent, state.refs, next.sent, next.refs, n);
  }

  lemma {:induction false} NotReceivedYet(state: State, slab: nat, upto: nat)
    requires Queued(state) && slab >= |state.sent| && upto <= |state.lanes|
    ensures Holders(state.lanes, slab, upto) == 0
  {
    if upto > 0 {
      var i := upto - 1;
      assert LaneSound(state.lanes[i], |state.sent|, Pushes(state.producer, |state.sent|, i));
      NotReceivedYet(state, slab, i);
    }
  }

  lemma PushCharges(limits: Limits, state: State)
    requires LanesSound(state) && ChargesSound(state) && Enabled(limits, state, Push)
    ensures ChargesSound(Next(limits, state, Push))
  {
    var next, at, slab := Next(limits, state, Push), state.producer.at, |state.sent| - 1;
    assert LaneSound(state.lanes[at], |state.sent|, slab);
    forall k | 0 <= k < |next.sent| ensures RefsAt(next, k) {
      assert RefsAt(state, k);
      HoldersChanged(state.lanes, at, next.lanes[at], k, |state.lanes|);
    }
    assert RefsAt(state, slab);
    LiveChanged(state.sent, state.refs, slab, state.refs[slab] + 1, |state.sent|);
  }

  lemma PushedCharges(limits: Limits, state: State)
    requires LanesSound(state) && ChargesSound(state) && Enabled(limits, state, Pushed)
    ensures ChargesSound(Next(limits, state, Pushed))
  {
    var next, slab := Next(limits, state, Pushed), |state.sent| - 1;
    assert RefsAt(state, slab);
    forall k | 0 <= k < |next.sent| ensures RefsAt(next, k) {
      assert RefsAt(state, k);
    }
    LiveChanged(state.sent, state.refs, slab, state.refs[slab] - 1, |state.sent|);
  }

  lemma LetGoCharges(limits: Limits, state: State, task: nat)
    requires LanesSound(state) && ChargesSound(state) && Enabled(limits, state, LetGo(task))
    ensures ChargesSound(Next(limits, state, LetGo(task)))
  {
    var next, at, slab := Next(limits, state, LetGo(task)), state.tasks[task].lane, state.tasks[task].phase.slab;
    LetsGoOfLive(limits, state, task);
    LetGoRefs(state, next, at, LettingGo(state.lanes[at]), slab);
    LiveChanged(state.sent, state.refs, slab, state.refs[slab] - 1, |state.sent|);
  }

  lemma LetsGoOfLive(limits: Limits, state: State, task: nat)
    requires LanesSound(state) && ChargesSound(state) && Enabled(limits, state, LetGo(task))
    ensures var lane, slab := state.lanes[state.tasks[task].lane], state.tasks[task].phase.slab;
      slab < |state.sent| && state.refs[slab] > 0 && lane.letGo == slab < lane.received
  {
    var at, slab := state.tasks[task].lane, state.tasks[task].phase.slab;
    assert TaskSound(state, task);
    assert LaneSound(state.lanes[at], |state.sent|, Pushes(state.producer, |state.sent|, at));
    HasSome(state.lanes, at, slab, |state.lanes|);
    assert RefsAt(state, slab);
  }

  lemma {:induction false} HasSome(lanes: seq<Lane>, at: nat, slab: nat, upto: nat)
    requires at < upto <= |lanes|
    ensures Holders(lanes, slab, upto) >= Has(lanes[at], slab)
  {
    if at + 1 < upto {
      HasSome(lanes, at, slab, upto - 1);
    }
  }

  lemma LetGoRefs(state: State, next: State, at: nat, lane: Lane, slab: nat)
    requires ChargesSound(state) && at < |state.lanes| && next.lanes == state.lanes[at := lane]
    requires next.sent == state.sent && slab < |state.refs| && state.refs[slab] > 0
    requires next.refs == state.refs[slab := state.refs[slab] - 1] && next.producer == state.producer
    requires lane.letGo == slab + 1 && state.lanes[at].letGo == slab < lane.received == state.lanes[at].received
    ensures forall k | 0 <= k < |next.sent| :: RefsAt(next, k)
  {
    forall k | 0 <= k < |next.sent| ensures RefsAt(next, k) {
      assert RefsAt(state, k);
      HoldersChanged(state.lanes, at, lane, k, |state.lanes|);
    }
  }

  // ---------------------------------------------------------------- bounds and what was fed

  function Larger(one: nat, other: nat): nat {
    if one < other then other else one
  }

  /** The most that may be queued, or the largest slab where that is more by itself. */
  function MostCharged(limit: nat, sent: seq<Slab>): (most: nat)
    ensures most >= limit
    ensures forall k | 0 <= k < |sent| :: sent[k].Bytes() <= most
  {
    if sent == [] then limit
    else Larger(MostCharged(limit, sent[..|sent| - 1]), sent[|sent| - 1].Bytes())
  }

  function PiecesOf(sent: seq<Slab>): seq<Piece> {
    if sent == [] then [] else PiecesOf(sent[..|sent| - 1]) + sent[|sent| - 1].pieces
  }

  ghost predicate FedSound(limits: Limits, state: State) {
    && state.bytes <= MostCharged(limits.bytes, state.sent)
    && PiecesOf(state.sent) + state.gathered == state.fed
    && (!state.producer.Gathering? && !state.producer.Waiting? ==> state.gathered == [])
    && (state.producer.Done? ==> state.tasks == map[])
  }

  lemma FedKept(limits: Limits, state: State, event: Event)
    requires LanesSound(state) && ChargesSound(state) && FedSound(limits, state) && Enabled(limits, state, event)
    ensures FedSound(limits, Next(limits, state, event))
  {
    if event.Room? {
      RoomFed(limits, state);
    } else if event.Feed? {
      PieceFed(limits, state, event.piece);
    } else {
      NothingFed(limits, state, event);
    }
  }

  lemma RoomFed(limits: Limits, state: State)
    requires FedSound(limits, state) && Enabled(limits, state, Room)
    ensures FedSound(limits, Charged(state))
  {
    var slab := Slab(state.gathered);
    assert (state.sent + [slab])[..|state.sent|] == state.sent;
  }

  lemma PieceFed(limits: Limits, state: State, piece: Piece)
    requires FedSound(limits, state) && Enabled(limits, state, Feed(piece))
    ensures FedSound(limits, Fed(limits, state, piece))
  {
    Regrouped(PiecesOf(state.sent), state.gathered, [piece]);
  }

  lemma NothingFed(limits: Limits, state: State, event: Event)
    requires FedSound(limits, state) && ChargesSound(state) && LanesSound(state)
    requires Enabled(limits, state, event) && !event.Room? && !event.Feed?
    ensures FedSound(limits, Next(limits, state, event))
  {
    FedUnmoved(limits, state, event);
    assert Next(limits, state, event).producer.Done? ==> Next(limits, state, event).tasks == map[];
  }

  lemma FedUnmoved(limits: Limits, state: State, event: Event)
    requires FedSound(limits, state) && Enabled(limits, state, event) && !event.Room? && !event.Feed?
    ensures var next := Next(limits, state, event);
      && next.sent == state.sent && next.gathered == state.gathered && next.fed == state.fed
      && next.bytes <= state.bytes
  {
  }

  // ---------------------------------------------------------------- whole runs

  ghost predicate Sound(limits: Limits, state: State) {
    LanesSound(state) && NotesSound(state) && ChargesSound(state) && FedSound(limits, state)
  }

  /** Before anything is fed: an empty lane for every stage. */
  function Begin(alike: seq<bool>): State {
    State(
      seq(|alike|, i requires 0 <= i < |alike| => Lane(alike[i], [], false, false, 0, 0, 0, 0, 0, [])),
      map[], 0, [], [], 0, Gathering, [], [], false)
  }

  lemma BeginSound(limits: Limits, alike: seq<bool>)
    ensures Sound(limits, Begin(alike))
  {
  }

  /** Steps of the producer and the tasks in whatever order they are taken. */
  ghost predicate Allowed(limits: Limits, state: State, events: seq<Event>)
    decreases |events|
  {
    events == [] || (Enabled(limits, state, events[0]) && Allowed(limits, Next(limits, state, events[0]), events[1..]))
  }

  function After(limits: Limits, state: State, events: seq<Event>): State
    requires Allowed(limits, state, events)
    decreases |events|
  {
    if events == [] then state else After(limits, Next(limits, state, events[0]), events[1..])
  }

  lemma SoundKept(limits: Limits, state: State, event: Event)
    requires Sound(limits, state) && Enabled(limits, state, event)
    ensures Sound(limits, Next(limits, state, event))
  {
    LanesKept(limits, state, event);
    NotesKept(limits, state, event);
    ChargesKept(limits, state, event);
    FedKept(limits, state, event);
  }

  lemma {:induction false} AlwaysSound(limits: Limits, state: State, events: seq<Event>)
    requires Sound(limits, state) && Allowed(limits, state, events)
    ensures Sound(limits, After(limits, state, events))
    decreases |events|
  {
    if events != [] {
      SoundKept(limits, state, events[0]);
      AlwaysSound(limits, Next(limits, state, events[0]), events[1..]);
    }
  }

  // ---------------------------------------------------------------- waiting and settling

  /** The next step of a task, which is always one it can take. */
  function StepOf(state: State, task: nat): (event: Event)
    requires task in state.tasks
  {
    match state.tasks[task].phase
    case Spawned => Look(task, false)
    case Looked => Pop(task)
    case Popped(_) => Hear(task)
    case Heard(_) => LetGo(task)
    case Released => Finish(task)
  }

  lemma TaskCanStep(limits: Limits, state: State, task: nat)
    requires LanesSound(state) && task in state.tasks
    ensures Enabled(limits, state, StepOf(state, task))
  {
    assert TaskSound(state, task);
  }

  /** Where anything is charged and the producer holds nothing, some lane has a task. */
  lemma ChargedHasTask(limits: Limits, state: State) returns (task: nat)
    requires LanesSound(state) && ChargesSound(state) && !state.producer.Pushing? && state.bytes > 0
    ensures task in state.tasks && Enabled(limits, state, StepOf(state, task))
  {
    var slab := SomeLive(state.sent, state.refs, |state.sent|);
    assert RefsAt(state, slab);
    var i := SomeHolder(state.lanes, slab, |state.lanes|);
    assert LaneSound(state.lanes[i], |state.sent|, Pushes(state.producer, |state.sent|, i));
    task := state.lanes[i].drainer;
    TaskCanStep(limits, state, task);
  }

  lemma {:induction false} SomeLive(sent: seq<Slab>, refs: seq<nat>, upto: nat) returns (slab: nat)
    requires upto <= |sent| && upto <= |refs| && Live(sent, refs, upto) > 0
    ensures slab < upto && refs[slab] > 0
  {
    if refs[upto - 1] > 0 {
      slab := upto - 1;
    } else {
      slab := SomeLive(sent, refs, upto - 1);
    }
  }

  lemma {:induction false} SomeHolder(lanes: seq<Lane>, slab: nat, upto: nat) returns (i: nat)
    requires upto <= |lanes| && Holders(lanes, slab, upto) > 0
    ensures i < upto && Has(lanes[i], slab) == 1
  {
    if Has(lanes[upto - 1], slab) == 1 {
      i := upto - 1;
    } else {
      i := SomeHolder(lanes, slab, upto - 1);
    }
  }

  /** A producer that waits for room waits for a task that can step. */
  lemma WaitingHasTask(limits: Limits, state: State) returns (task: nat)
    requires Sound(limits, state) && state.producer.Waiting? && !HasRoom(limits, state)
    ensures task in state.tasks && Enabled(limits, state, StepOf(state, task))
  {
    task := ChargedHasTask(limits, state);
  }

  function Rank(phase: Phase): nat {
    match phase
    case Spawned => 2
    case Looked => 1
    case Popped(_) => 5
    case Heard(_) => 4
    case Released => 3
  }

  /** What is left for the tasks of the first lanes to do, were nothing more pushed. */
  function Work(state: State, upto: nat): nat
    requires upto <= |state.lanes|
  {
    if upto == 0 then 0 else Work(state, upto - 1) + WorkIn(state, upto - 1)
  }

  function WorkIn(state: State, i: nat): nat
    requires i < |state.lanes|
  {
    5 * |state.lanes[i].queue|
      + if state.lanes[i].draining && state.lanes[i].drainer in state.tasks
        then Rank(state.tasks[state.lanes[i].drainer].phase) else 0
  }

  predicate OfTask(event: Event) {
    event.Look? || event.Pop? || event.Hear? || event.LetGo? || event.Finish?
  }

  ghost predicate OfTasks(events: seq<Event>) {
    forall k | 0 <= k < |events| :: OfTask(events[k])
  }

  /** Every step of a task leaves less for the tasks to do, so that they cannot go on without
      the producer for ever. */
  lemma TasksWorkOff(limits: Limits, state: State, event: Event)
    requires LanesSound(state) && OfTask(event) && Enabled(limits, state, event)
    ensures |Next(limits, state, event).lanes| == |state.lanes|
    ensures Work(Next(limits, state, event), |state.lanes|) < Work(state, |state.lanes|)
  {
    var next, at := Next(limits, state, event), state.tasks[event.task].lane;
    assert TaskSound(state, event.task);
    forall i | 0 <= i < |state.lanes| && i != at ensures WorkIn(next, i) == WorkIn(state, i) {
      WorkElsewhere(limits, state, event, i);
    }
    LessHere(limits, state, event, at);
    LessWork(state, next, at, |state.lanes|);
  }

  lemma WorkElsewhere(limits: Limits, state: State, event: Event, i: nat)
    requires LanesSound(state) && OfTask(event) && Enabled(limits, state, event)
    requires i < |state.lanes| && i != state.tasks[event.task].lane
    ensures |Next(limits, state, event).lanes| == |state.lanes|
    ensures WorkIn(Next(limits, state, event), i) == WorkIn(state, i)
  {
    assert TaskSound(state, event.task);
    assert Next(limits, state, event).lanes[i] == state.lanes[i];
    if state.lanes[i].draining {
      assert state.lanes[i].drainer in state.tasks && state.lanes[i].drainer != event.task;
      assert TaskSound(state, state.lanes[i].drainer);
    }
  }

  lemma LessHere(limits: Limits, state: State, event: Event, at: nat)
    requires LanesSound(state) && OfTask(event) && Enabled(limits, state, event) && at == state.tasks[event.task].lane
    ensures |Next(limits, state, event).lanes| == |state.lanes|
    ensures WorkIn(Next(limits, state, event), at) < WorkIn(state, at)
  {
    assert TaskSound(state, event.task);
  }

  lemma {:induction false} LessWork(state: State, next: State, at: nat, upto: nat)
    requires upto <= |state.lanes| == |next.lanes|
    requires forall i | 0 <= i < upto && i != at :: WorkIn(next, i) == WorkIn(state, i)
    requires at < |state.lanes| && WorkIn(next, at) < WorkIn(state, at)
    ensures if at < upto then Work(next, upto) < Work(state, upto) else Work(next, upto) == Work(state, upto)
  {
    if upto > 0 {
      LessWork(state, next, at, upto - 1);
    }
  }

  /** However the tasks step, they take no more steps than they had work to do. */
  lemma {:induction false} TasksEnd(limits: Limits, state: State, events: seq<Event>)
    requires Sound(limits, state) && Allowed(limits, state, events) && OfTasks(events)
    ensures |events| <= Work(state, |state.lanes|)
    decreases |events|
  {
    if events != [] {
      assert OfTask(events[0]);
      TaskWorksOff(limits, state, events[0]);
      TasksEnd(limits, Next(limits, state, events[0]), events[1..]);
    }
  }

  lemma TaskWorksOff(limits: Limits, state: State, event: Event)
    requires Sound(limits, state) && OfTask(event) && Enabled(limits, state, event)
    ensures var next := Next(limits, state, event);
      Sound(limits, next) && |next.lanes| == |state.lanes| && Work(next, |next.lanes|) < Work(state, |state.lanes|)
  {
    TasksWorkOff(limits, state, event);
    SoundKept(limits, state, event);
  }

  /** However the tasks stepped, where none of them can go on while the producer waits there is
      room. */
  lemma {:induction false} TasksLeaveRoom(limits: Limits, state: State, events: seq<Event>)
    requires Sound(limits, state) && state.producer.Waiting? && Allowed(limits, state, events) && OfTasks(events)
    requires forall event | OfTask(event) :: !Enabled(limits, After(limits, state, events), event)
    ensures HasRoom(limits, After(limits, state, events))
    decreases |events|
  {
    if events == [] {
      if !HasRoom(limits, state) {
        var task := WaitingHasTask(limits, state);
        var event := StepOf(state, task);
        assert OfTask(event);
      }
    } else {
      assert OfTask(events[0]);
      WaitsStill(limits, state, events[0]);
      SoundKept(limits, state, events[0]);
      TasksLeaveRoom(limits, Next(limits, state, events[0]), events[1..]);
    }
  }

  /** Some steps of the tasks, while the producer waits, come to where there is room. */
  lemma {:induction false} RoomComes(limits: Limits, state: State) returns (events: seq<Event>)
    requires Sound(limits, state) && state.producer.Waiting?
    ensures Allowed(limits, state, events) && OfTasks(events)
    ensures HasRoom(limits, After(limits, state, events))
    decreases Work(state, |state.lanes|)
  {
    if HasRoom(limits, state) {
      events := [];
    } else {
      var event, next := TaskSteps(limits, state);
      var rest := RoomComes(limits, next);
      events := [event] + rest;
      AllowedMore(limits, state, event, rest);
    }
  }

  lemma TaskSteps(limits: Limits, state: State) returns (event: Event, next: State)
    requires Sound(limits, state) && state.producer.Waiting? && !HasRoom(limits, state)
    ensures OfTask(event) && Enabled(limits, state, event) && next == Next(limits, state, event)
    ensures Sound(limits, next) && next.producer.Waiting? && Work(next, |next.lanes|) < Work(state, |state.lanes|)
  {
    var task := WaitingHasTask(limits, state);
    event := StepOf(state, task);
    next := Next(limits, state, event);
    TasksWorkOff(limits, state, event);
    SoundKept(limits, state, event);
    WaitsStill(limits, state, event);
  }

  lemma AllowedMore(limits: Limits, state: State, event: Event, rest: seq<Event>)
    requires Enabled(limits, state, event) && Allowed(limits, Next(limits, state, event), rest)
    requires OfTask(event) && OfTasks(rest)
    ensures Allowed(limits, state, [event] + rest) && OfTasks([event] + rest)
    ensures After(limits, state, [event] + rest) == After(limits, Next(limits, state, event), rest)
  {
    assert ([event] + rest)[1..] == rest;
  }

  lemma WaitsStill(limits: Limits, state: State, event: Event)
    requires Enabled(limits, state, event) && OfTask(event)
    ensures Next(limits, state, event).producer == state.producer
  {
  }

  /** Nothing is ever stuck: until the producer is done something can step. */
  lemma NeverStuck(limits: Limits, state: State) returns (event: Event)
    requires Sound(limits, state) && !state.producer.Done?
    ensures Enabled(limits, state, event) && !event.StopSeen?
  {
    match state.producer
    case Gathering => event := Ends;
    case Waiting(_) =>
      if HasRoom(limits, state) {
        event := Room;
      } else {
        var task := WaitingHasTask(limits, state);
        event := StepOf(state, task);
      }
    case Pushing(at, _) => event := if at < |state.lanes| then Push else Pushed;
    case Settling =>
      if state.bytes == 0 {
        event := Settle;
      } else {
        var task := ChargedHasTask(limits, state);
        event := StepOf(state, task);
      }
    case Joining =>
      if task :| task in state.tasks {
        TaskCanStep(limits, state, task);
        event := StepOf(state, task);
      } else {
        event := Join;
      }
  }

  // ---------------------------------------------------------------- what is heard in the end

  /** Once the producer is done and was never stopped, every stage has heard every slab, and
      nothing is charged any more. */
  lemma DoneHeardAll(limits: Limits, state: State, i: nat)
    requires Sound(limits, state) && state.producer.Done? && !state.cancelled && i < |state.lanes|
    ensures state.lanes[i].hears == |state.sent| && PiecesOf(state.sent) == state.fed
    ensures state.lanes[i].noted == GivenUpto(state.lanes[i].alike, state.sent, |state.sent|)
  {
    assert !state.lanes[i].draining;
    assert LaneSound(state.lanes[i], |state.sent|, |state.sent|);
    assert |Range(state.lanes[i].popped, state.lanes[i].received)| == 0;
    assert NoteSound(state.lanes[i], state.sent);
  }

  lemma DoneFreedAll(limits: Limits, state: State)
    requires Sound(limits, state) && state.producer.Done?
    ensures state.bytes == 0
  {
    if state.bytes > 0 {
      var task := ChargedHasTask(limits, state);
    }
  }

  /** What a stage has noted at any time is the pieces fed, in order, up to a point: piece by
      piece where pieces matter, and sample by sample where they do not. */
  lemma HeardInOrder(limits: Limits, state: State, i: nat) returns (rest: seq<Piece>)
    requires Sound(limits, state) && i < |state.lanes|
    ensures !state.lanes[i].alike ==> state.lanes[i].noted + rest == state.fed
    ensures Joined(state.lanes[i].noted) + Joined(rest) == Joined(state.fed)
    ensures state.producer.Done? && !state.cancelled ==> rest == []
  {
    var lane := state.lanes[i];
    assert NoteSound(lane, state.sent);
    if state.producer.Done? && !state.cancelled {
      DoneHeardAll(limits, state, i);
      assert lane.hears == |state.sent|;
    }
    rest := FedAfter(lane.alike, state.sent, state.gathered, lane.hears);
  }

  /** Whatever order the producer and the tasks step in, a run that comes to its end without
      being stopped leaves every stage with just what was fed: piece by piece where pieces
      matter, and sample by sample where any pieces are alike. */
  lemma EndsHeard(limits: Limits, alike: seq<bool>, events: seq<Event>, i: nat)
    requires Allowed(limits, Begin(alike), events) && i < |alike|
    requires After(limits, Begin(alike), events).producer.Done? && !After(limits, Begin(alike), events).cancelled
    ensures var end := After(limits, Begin(alike), events);
      && i < |end.lanes| && end.bytes == 0 && end.tasks == map[]
      && Joined(end.lanes[i].noted) == Joined(end.fed)
      && (!end.lanes[i].alike ==> end.lanes[i].noted == end.fed)
  {
    var end := After(limits, Begin(alike), events);
    BeginSound(limits, alike);
    AlwaysSound(limits, Begin(alike), events);
    LanesCounted(limits, Begin(alike), events);
    DoneFreedAll(limits, end);
    var rest := HeardInOrder(limits, end, i);
    assert Joined(end.lanes[i].noted) + [] == Joined(end.lanes[i].noted);
    assert end.lanes[i].noted + [] == end.lanes[i].noted;
  }

  ghost predicate EachWhole(pieces: seq<Piece>, width: nat)
    requires width > 0
  {
    forall k | 0 <= k < |pieces| :: WholeFrames(pieces[k], width)
  }

  lemma {:induction false} JoinedWhole(pieces: seq<Piece>, width: nat)
    requires width > 0 && EachWhole(pieces, width)
    ensures WholeFrames(Joined(pieces), width)
    decreases |pieces|
  {
    if pieces != [] {
      JoinedWhole(pieces[..|pieces| - 1], width);
      WholeJoined(Joined(pieces[..|pieces| - 1]), pieces[|pieces| - 1], width);
    }
  }

  lemma {:induction false} GivenWhole(alike: bool, sent: seq<Slab>, upto: nat, width: nat)
    requires width > 0 && upto <= |sent| && EachWhole(PiecesOf(sent), width)
    ensures EachWhole(GivenUpto(alike, sent, upto), width)
    decreases upto
  {
    if upto > 0 {
      GivenWhole(alike, sent, upto - 1, width);
      SlabWhole(sent, upto - 1, width);
      JoinedWhole(sent[upto - 1].pieces, width);
    }
  }

  lemma {:induction false} SlabWhole(sent: seq<Slab>, at: nat, width: nat)
    requires width > 0 && at < |sent| && EachWhole(PiecesOf(sent), width)
    ensures EachWhole(sent[at].pieces, width)
    decreases |sent|
  {
    var before, last := PiecesOf(sent[..|sent| - 1]), sent[|sent| - 1].pieces;
    var all := PiecesOf(sent);
    assert all == before + last;
    if at < |sent| - 1 {
      assert EachWhole(before, width) by {
        assert forall k | 0 <= k < |before| :: before[k] == all[k];
      }
      SlabWhole(sent[..|sent| - 1], at, width);
    } else {
      assert forall k | 0 <= k < |last| :: last[k] == all[|before| + k];
    }
  }

  /** A bank that notes what a stage was given over a run, piece by piece as it was given, comes
      to what the whole stream that was fed comes to. */
  method HeardByCrew<S(!new)>(
    ghost limits: Limits, ghost alike: seq<bool>, ghost events: seq<Event>, ghost i: nat, noted: seq<Piece>,
    setup: Setup<S>, index: nat, width: nat, turns: Option<Turns>) returns (tiled: Tiled)
    requires setup.Valid() && index < width && (turns.Some? ==> Each(turns.value))
    requires Allowed(limits, Begin(alike), events) && i < |alike|
    requires var end := After(limits, Begin(alike), events);
      && end.producer.Done? && !end.cancelled && EachWhole(end.fed, width)
      && i < |end.lanes| && noted == end.lanes[i].noted
    ensures tiled == TilesOf(setup, Banks.Lane(Joined(After(limits, Begin(alike), events).fed), index, width))
  {
    ghost var end := After(limits, Begin(alike), events);
    EndsHeard(limits, alike, events, i);
    BeginSound(limits, alike);
    AlwaysSound(limits, Begin(alike), events);
    DoneHeardAll(limits, end, i);
    GivenWhole(end.lanes[i].alike, end.sent, |end.sent|, width);
    tiled := HeardInPieces(setup, index, width, noted, turns);
  }

  lemma {:induction false} LanesCounted(limits: Limits, state: State, events: seq<Event>)
    requires Allowed(limits, state, events)
    ensures |After(limits, state, events).lanes| == |state.lanes|
    decreases |events|
  {
    if events != [] {
      LanesCounted(limits, Next(limits, state, events[0]), events[1..]);
    }
  }

  lemma FedAfter(alike: bool, sent: seq<Slab>, gathered: seq<Piece>, hears: nat) returns (rest: seq<Piece>)
    requires hears <= |sent|
    ensures !alike ==> GivenUpto(alike, sent, hears) + rest == PiecesOf(sent) + gathered
    ensures Joined(GivenUpto(alike, sent, hears)) + Joined(rest) == Joined(PiecesOf(sent) + gathered)
    ensures hears == |sent| && gathered == [] ==> rest == []
  {
    GivenIsPieces(alike, sent, hears);
    PiecesSplit(sent, hears);
    var heard, later := PiecesOf(sent[..hears]), PiecesOf(sent[hears..]);
    rest := later + gathered;
    Regrouped(heard, later, gathered);
    PiecesJoined(heard, rest);
  }

  lemma {:induction false} PiecesJoined(one: seq<Piece>, other: seq<Piece>)
    ensures Joined(one + other) == Joined(one) + Joined(other)
  {
    if other == [] {
      assert one + other == one;
    } else {
      var last := |other| - 1;
      PiecesJoined(one, other[..last]);
      assert (one + other)[..|one + other| - 1] == one + other[..last];
    }
  }

  lemma {:induction false} PiecesSplit(sent: seq<Slab>, at: nat)
    requires at <= |sent|
    ensures PiecesOf(sent) == PiecesOf(sent[..at]) + PiecesOf(sent[at..])
  {
    if at == |sent| {
      assert sent[..at] == sent && sent[at..] == [];
    } else {
      var last := |sent| - 1;
      PiecesSplit(sent[..last], at);
      assert sent[..last][..at] == sent[..at] && sent[..last][at..] == sent[at..][..last - at];
    }
  }

  lemma {:induction false} GivenIsPieces(alike: bool, sent: seq<Slab>, upto: nat)
    requires upto <= |sent|
    ensures !alike ==> GivenUpto(alike, sent, upto) == PiecesOf(sent[..upto])
    ensures Joined(GivenUpto(alike, sent, upto)) == Joined(PiecesOf(sent[..upto]))
  {
    if upto > 0 {
      GivenIsPieces(alike, sent, upto - 1);
      var slab := sent[upto - 1];
      assert sent[..upto][..upto - 1] == sent[..upto - 1];
      var before := sent[..upto - 1];
      assert PiecesOf(sent[..upto]) == PiecesOf(before) + slab.pieces;
      GivenSamples(alike, slab);
      PiecesJoined(GivenUpto(alike, sent, upto - 1), Given(alike, slab));
      PiecesJoined(PiecesOf(before), slab.pieces);
    }
  }

  lemma GivenSamples(alike: bool, slab: Slab)
    ensures Joined(Given(alike, slab)) == Joined(slab.pieces)
  {
    if alike {
      assert [Joined(slab.pieces)][..0] == [];
    }
  }
}
