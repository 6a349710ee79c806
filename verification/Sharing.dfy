/** Cuts shared out among workers that each claim the next one there is: each cut measured by one of
    them, and all their counts and peaks joined. */
module Sharing {
  import opened Vectors
  import opened Wrappers

  datatype Tally = Tally(peak: real, measured: nat, passedOver: nat)

  const SILENT := Tally(0.0, 0, 0)

  /** Two workers' tallies together. */
  function Joined(one: Tally, other: Tally): (joined: Tally) {
    Tally(Max(one.peak, other.peak), one.measured + other.measured, one.passedOver + other.passedOver)
  }

  function JoinedAll(tallies: seq<Tally>): (joined: Tally)
    decreases |tallies|
  {
    if tallies == [] then SILENT else Joined(JoinedAll(tallies[..|tallies| - 1]), tallies[|tallies| - 1])
  }

  /** A worker about to claim a cut, measuring one, done since there are no more, or stopped. */
  datatype Stage = Claiming | Measuring(cut: nat) | Finished | Stopped

  /** What the next claim is given, the workers and their tallies, and what came of each cut: its
      peak, or nothing where it was passed over. */
  datatype State = State(next: nat, stages: seq<Stage>, tallies: seq<Tally>, came: map<nat, Option<real>>)

  datatype Event =
    | Claims(worker: nat)
    | Measures(worker: nat, peak: real)
    | PassesOver(worker: nat)
    | Stops(worker: nat)

  predicate Allowed(state: State, event: Event) {
    && event.worker < |state.stages| == |state.tallies|
    && match event
       case Claims(worker) => state.stages[worker].Claiming?
       case _ => state.stages[event.worker].Measuring?
  }

  function After(cuts: nat, state: State, event: Event): (after: State)
    requires Allowed(state, event)
  {
    var worker := event.worker;
    var tally := state.tallies[worker];
    match event
    case Claims(_) =>
      var stage := if state.next < cuts then Measuring(state.next) else Finished;
      state.(next := state.next + 1, stages := state.stages[worker := stage])
    case Measures(_, peak) =>
      state.(
        stages := state.stages[worker := Claiming],
        tallies := state.tallies[worker := Tally(Max(tally.peak, peak), tally.measured + 1, tally.passedOver)],
        came := state.came[state.stages[worker].cut := Some(peak)])
    case PassesOver(_) =>
      state.(
        stages := state.stages[worker := Claiming],
        tallies := state.tallies[worker := tally.(passedOver := tally.passedOver + 1)],
        came := state.came[state.stages[worker].cut := None])
    case Stops(_) =>
      state.(stages := state.stages[worker := Stopped])
  }

  function Begin(workers: nat): (state: State) {
    State(0, seq(workers, _ => Claiming), seq(workers, _ => SILENT), map[])
  }

  ghost predicate IsMeasured(state: State, cut: nat) {
    exists worker | 0 <= worker < |state.stages| :: state.stages[worker] == Measuring(cut)
  }

  /** Every cut claimed so far came to something or is being measured by one worker, and where one
      was stopped some may have come to nothing. */
  ghost predicate Sound(cuts: nat, state: State) {
    && |state.stages| == |state.tallies|
    && (forall worker | 0 <= worker < |state.stages| && state.stages[worker].Measuring? ::
          && state.stages[worker].cut < cuts && state.stages[worker].cut < state.next
          && state.stages[worker].cut !in state.came)
    && (forall one, other | 0 <= one < other < |state.stages| && state.stages[one].Measuring? ::
          state.stages[one] != state.stages[other])
    && (forall cut | cut in state.came :: cut < cuts && cut < state.next)
    && (forall cut: nat | cut < cuts && cut < state.next :: Accounted(state, cut))
    && (forall worker | 0 <= worker < |state.stages| && state.stages[worker].Finished? :: state.next >= cuts)
  }

  ghost predicate Accounted(state: State, cut: nat) {
    || cut in state.came || IsMeasured(state, cut)
    || exists worker | 0 <= worker < |state.stages| :: state.stages[worker].Stopped?
  }

  lemma ClaimKeeps(cuts: nat, state: State, worker: nat)
    requires Sound(cuts, state) && Allowed(state, Claims(worker))
    ensures Sound(cuts, After(cuts, state, Claims(worker)))
  {
    var after := After(cuts, state, Claims(worker));
    forall cut: nat | cut < cuts && cut < after.next
      ensures Accounted(after, cut)
    {
      if cut == state.next {
        assert after.stages[worker] == Measuring(cut);
      } else {
        StillAccounted(cuts, state, after, worker, cut);
      }
    }
  }

  lemma StillAccounted(cuts: nat, state: State, after: State, worker: nat, cut: nat)
    requires Accounted(state, cut) && worker < |state.stages| == |after.stages|
    requires forall other | 0 <= other < |state.stages| && other != worker :: after.stages[other] == state.stages[other]
    requires forall before | before in state.came :: before in after.came
    requires state.stages[worker] == Measuring(cut) ==> cut in after.came || after.stages[worker].Stopped?
    requires !state.stages[worker].Stopped?
    ensures Accounted(after, cut)
  {
    if IsMeasured(state, cut) {
      var who :| 0 <= who < |state.stages| && state.stages[who] == Measuring(cut);
      if who == worker {
        assert cut in after.came || after.stages[worker].Stopped?;
      } else {
        assert after.stages[who] == Measuring(cut);
      }
    } else if cut !in state.came {
      var who :| 0 <= who < |state.stages| && state.stages[who].Stopped?;
      assert after.stages[who].Stopped?;
    }
  }

  lemma OtherKeeps(cuts: nat, state: State, event: Event)
    requires Sound(cuts, state) && Allowed(state, event) && !event.Claims?
    ensures Sound(cuts, After(cuts, state, event))
  {
    var after := After(cuts, state, event);
    forall cut: nat | cut < cuts && cut < after.next
      ensures Accounted(after, cut)
    {
      StillAccounted(cuts, state, after, event.worker, cut);
    }
  }

  /** What was counted is what came of the cuts: as many measured and passed over as came to
      anything, and the loudest of their peaks. */
  ghost predicate Counts(state: State) {
    Counted(JoinedAll(state.tallies), state.came)
  }

  ghost predicate Counted(all: Tally, came: map<nat, Option<real>>) {
    && all.measured == |Peaks(came)| && all.passedOver == |came.Keys - Peaks(came)|
    && IsLoudest(all.peak, came)
  }

  ghost predicate IsLoudest(peak: real, came: map<nat, Option<real>>) {
    && (forall cut | cut in Peaks(came) :: came[cut].value <= peak)
    && (peak == 0.0 || exists cut | cut in Peaks(came) :: came[cut].value == peak)
    && peak >= 0.0
  }

  /** The cuts that came to a peak. */
  function Peaks(came: map<nat, Option<real>>): (peaks: set<nat>) {
    set cut | cut in came && came[cut].Some?
  }

  lemma {:induction false} JoinedWithOneChanged(tallies: seq<Tally>, worker: nat, tally: Tally)
    requires worker < |tallies| && tally.measured >= tallies[worker].measured
    requires tally.passedOver >= tallies[worker].passedOver && tally.peak >= tallies[worker].peak
    ensures var before, after := JoinedAll(tallies), JoinedAll(tallies[worker := tally]);
      && after.measured == before.measured + tally.measured - tallies[worker].measured
      && after.passedOver == before.passedOver + tally.passedOver - tallies[worker].passedOver
      && after.peak == Max(before.peak, tally.peak)
    decreases |tallies|
  {
    var last := |tallies| - 1;
    if worker == last {
      assert tallies[worker := tally][..last] == tallies[..last];
    } else {
      assert tallies[worker := tally][..last] == tallies[..last][worker := tally];
      JoinedWithOneChanged(tallies[..last], worker, tally);
    }
  }

  lemma OnePeakMore(all: Tally, came: map<nat, Option<real>>, cut: nat, peak: real)
    requires Counted(all, came) && cut !in came
    ensures Counted(Tally(Max(all.peak, peak), all.measured + 1, all.passedOver), came[cut := Some(peak)])
  {
    OneMorePeak(came, cut, peak);
    LoudestOfOneMore(all.peak, came, cut, peak);
  }

  lemma OneMorePeak(came: map<nat, Option<real>>, cut: nat, peak: real)
    requires cut !in came
    ensures var after := came[cut := Some(peak)];
      |Peaks(after)| == |Peaks(came)| + 1 && after.Keys - Peaks(after) == came.Keys - Peaks(came)
  {
    var after := came[cut := Some(peak)];
    assert Peaks(after) == Peaks(came) + {cut};
    assert cut !in Peaks(came);
  }

  lemma LoudestOfOneMore(loudest: real, came: map<nat, Option<real>>, cut: nat, peak: real)
    requires IsLoudest(loudest, came) && cut !in came
    ensures IsLoudest(Max(loudest, peak), came[cut := Some(peak)])
  {
    var after := came[cut := Some(peak)];
    assert after[cut].value == peak && cut in Peaks(after);
    assert forall other | other in Peaks(after) && other != cut :: other in Peaks(came) && after[other] == came[other];
    if loudest >= peak && loudest != 0.0 {
      var which :| which in Peaks(came) && came[which].value == loudest;
      assert which in Peaks(after) && after[which].value == loudest;
    }
  }

  lemma OneMorePassedOver(all: Tally, came: map<nat, Option<real>>, cut: nat)
    requires Counted(all, came) && cut !in came
    ensures Counted(all.(passedOver := all.passedOver + 1), came[cut := None])
  {
    PeaksAlike(came, cut);
    LoudestStays(all.peak, came, came[cut := None]);
  }

  lemma LoudestStays(loudest: real, came: map<nat, Option<real>>, after: map<nat, Option<real>>)
    requires IsLoudest(loudest, came) && Peaks(after) == Peaks(came)
    requires forall cut | cut in Peaks(came) :: after[cut] == came[cut]
    ensures IsLoudest(loudest, after)
  {
    if loudest != 0.0 {
      var which :| which in Peaks(came) && came[which].value == loudest;
      assert which in Peaks(after) && after[which].value == loudest;
    }
  }

  lemma PeaksAlike(came: map<nat, Option<real>>, cut: nat)
    requires cut !in came
    ensures var after := came[cut := None];
      && Peaks(after) == Peaks(came) && |after.Keys - Peaks(after)| == |came.Keys - Peaks(came)| + 1
      && forall other | other in Peaks(came) :: after[other] == came[other]
  {
    var after, passed := came[cut := None], came.Keys - Peaks(came);
    assert Peaks(after) == Peaks(came);
    assert after.Keys - Peaks(came) == passed + {cut};
    assert cut !in passed;
  }

  lemma LouderYet(before: real, held: real, peak: real)
    requires held <= before
    ensures Max(before, Max(held, peak)) == Max(before, peak)
  {
  }

  lemma {:induction false} NoneOverJoined(tallies: seq<Tally>, worker: nat)
    requires worker < |tallies|
    ensures tallies[worker].peak <= JoinedAll(tallies).peak
    decreases |tallies|
  {
    if worker < |tallies| - 1 {
      NoneOverJoined(tallies[..|tallies| - 1], worker);
    }
  }

  lemma StepCounts(cuts: nat, state: State, event: Event)
    requires Sound(cuts, state) && Counts(state) && Allowed(state, event)
    ensures Counts(After(cuts, state, event))
  {
    if event.Measures? || event.PassesOver? {
      var worker, all := event.worker, JoinedAll(state.tallies);
      var tally := After(cuts, state, event).tallies[worker];
      JoinedWithOneChanged(state.tallies, worker, tally);
      NoneOverJoined(state.tallies, worker);
      if event.Measures? {
        LouderYet(all.peak, state.tallies[worker].peak, event.peak);
        OnePeakMore(all, state.came, state.stages[worker].cut, event.peak);
      } else {
        OneMorePassedOver(all, state.came, state.stages[worker].cut);
      }
    }
  }

  predicate AllAllowed(cuts: nat, state: State, events: seq<Event>)
    decreases |events|
  {
    events == [] || (Allowed(state, events[0]) && AllAllowed(cuts, After(cuts, state, events[0]), events[1..]))
  }

  function AfterAll(cuts: nat, state: State, events: seq<Event>): (after: State)
    requires AllAllowed(cuts, state, events)
    decreases |events|
  {
    if events == [] then state else AfterAll(cuts, After(cuts, state, events[0]), events[1..])
  }

  lemma {:induction false} AlwaysCounts(cuts: nat, state: State, events: seq<Event>)
    requires Sound(cuts, state) && Counts(state) && AllAllowed(cuts, state, events)
    ensures Sound(cuts, AfterAll(cuts, state, events)) && Counts(AfterAll(cuts, state, events))
    ensures |AfterAll(cuts, state, events).stages| == |state.stages|
    decreases |events|
  {
    if events != [] {
      StepCounts(cuts, state, events[0]);
      if events[0].Claims? {
        ClaimKeeps(cuts, state, events[0].worker);
      } else {
        OtherKeeps(cuts, state, events[0]);
      }
      AlwaysCounts(cuts, After(cuts, state, events[0]), events[1..]);
    }
  }

  lemma SilentJoined(one: Tally, other: Tally)
    requires one == other == Tally(0.0, 0, 0)
    ensures Joined(one, other) == Tally(0.0, 0, 0)
  {
    assert Max(one.peak, other.peak) == 0.0;
  }

  lemma {:induction false} NothingJoined(tallies: seq<Tally>)
    requires forall k | 0 <= k < |tallies| :: tallies[k] == SILENT
    ensures JoinedAll(tallies) == SILENT
    decreases |tallies|
  {
    if tallies != [] {
      NothingJoined(tallies[..|tallies| - 1]);
      SilentJoined(JoinedAll(tallies[..|tallies| - 1]), tallies[|tallies| - 1]);
    }
  }

  function Upto(n: nat): (numbers: set<nat>)
    ensures forall k: nat :: k in numbers <==> k < n
    ensures |numbers| == n
  {
    if n == 0 then {} else Upto(n - 1) + {n - 1}
  }

  lemma AllCame(cuts: nat, state: State)
    requires Sound(cuts, state) && |state.stages| > 0
    requires forall worker | 0 <= worker < |state.stages| :: state.stages[worker].Finished?
    ensures state.came.Keys == Upto(cuts)
  {
    assert state.stages[0].Finished?;
    forall cut: nat | cut < cuts ensures cut in state.came {
      assert Accounted(state, cut);
    }
  }

  /** However the workers take turns, once they are all done every cut has been counted once, as
      measured or as passed over, and the peak is the loudest of those measured. */
  lemma EveryCutOnce(cuts: nat, workers: nat, events: seq<Event>)
    requires workers > 0 && AllAllowed(cuts, Begin(workers), events)
    requires forall worker | 0 <= worker < |AfterAll(cuts, Begin(workers), events).stages| ::
      AfterAll(cuts, Begin(workers), events).stages[worker].Finished?
    ensures var end := AfterAll(cuts, Begin(workers), events);
      var all := JoinedAll(end.tallies);
      && end.came.Keys == Upto(cuts) && Counted(all, end.came) && all.measured + all.passedOver == cuts
  {
    BeginSound(cuts, workers);
    AlwaysCounts(cuts, Begin(workers), events);
    var end := AfterAll(cuts, Begin(workers), events);
    AllCame(cuts, end);
    CountedAll(JoinedAll(end.tallies), end.came, cuts);
  }

  lemma CountedAll(all: Tally, came: map<nat, Option<real>>, cuts: nat)
    requires Counted(all, came) && came.Keys == Upto(cuts)
    ensures all.measured + all.passedOver == cuts
  {
    var peaks, passed := Peaks(came), came.Keys - Peaks(came);
    assert came.Keys == peaks + passed && peaks !! passed;
  }

  lemma SilentCounts(state: State)
    requires state.came == map[] && forall k | 0 <= k < |state.tallies| :: state.tallies[k] == SILENT
    ensures Counts(state)
  {
    NothingJoined(state.tallies);
    NothingCounts(JoinedAll(state.tallies), state.came);
  }

  lemma NothingCounts(all: Tally, came: map<nat, Option<real>>)
    requires all == Tally(0.0, 0, 0) && came == map[]
    ensures Counted(all, came)
  {
    assert Peaks(came) == {};
  }

  lemma BeginSound(cuts: nat, workers: nat)
    ensures Sound(cuts, Begin(workers)) && Counts(Begin(workers)) && |Begin(workers).stages| == workers
  {
    SilentCounts(Begin(workers));
  }
}
