/** A recursive filter over planes of lanes, whatever its state is, run forwards over a
    stream and backwards over what a forward run left. */
module Filtering {

  type Plane = seq<real>

  /** Planes run backwards from a state that others ahead of them leave, however that is done. */
  type Backing = (seq<Plane>, seq<Plane>) -> seq<Plane>

  ghost predicate Keeps(backward: Backing) {
    forall settled, ahead {:trigger backward(settled, ahead)} :: |backward(settled, ahead)| == |settled|
  }

  /** One step takes a state and a plane to the next state and the plane passed on. */
  datatype Filter<!S(!new)> = Filter(step: (S, Plane) -> (S, Plane), silent: S, lanes: nat) {

    ghost predicate Valid() {
      forall state, plane: Plane | |plane| == lanes :: |step(state, plane).1| == lanes
    }

    function StateAfter(state: S, planes: seq<Plane>): S {
      if planes == [] then state
      else step(StateAfter(state, planes[..|planes| - 1]), planes[|planes| - 1]).0
    }

    function StateAt(state: S, planes: seq<Plane>, n: nat): S
      requires n <= |planes|
    {
      StateAfter(state, planes[..n])
    }

    lemma StateJoined(state: S, one: seq<Plane>, other: seq<Plane>, n: nat)
      requires n <= |one|
      ensures StateAt(state, one + other, n) == StateAt(state, one, n)
      ensures StateAt(state, one, |one|) == StateAfter(state, one)
    {
      assert (one + other)[..n] == one[..n];
      assert one[..|one|] == one;
    }

    function Run(state: S, planes: seq<Plane>): (passed: seq<Plane>)
      ensures |passed| == |planes|
    {
      if planes == [] then []
      else
        var before := planes[..|planes| - 1];
        Run(state, before) + [step(StateAfter(state, before), planes[|planes| - 1]).1]
    }

    lemma {:induction false} RunJoined(state: S, one: seq<Plane>, other: seq<Plane>)
      ensures StateAfter(state, one + other) == StateAfter(StateAfter(state, one), other)
      ensures Run(state, one + other) == Run(state, one) + Run(StateAfter(state, one), other)
    {
      if other == [] {
        assert one + other == one;
      } else {
        var before, plane := other[..|other| - 1], other[|other| - 1];
        RunJoined(state, one, before);
        assert one + other == one + before + [plane];
        RunMore(state, one + before, plane);
        assert other == before + [plane];
        RunMore(StateAfter(state, one), before, plane);
        var runs := Run(state, one) + Run(StateAfter(state, one), before);
        assert runs == Run(state, one + before);
      }
    }

    /** One more plane run after the rest. */
    lemma RunMore(state: S, planes: seq<Plane>, plane: Plane)
      ensures StateAfter(state, planes + [plane]) == step(StateAfter(state, planes), plane).0
      ensures Run(state, planes + [plane]) == Run(state, planes) + [step(StateAfter(state, planes), plane).1]
    {
      assert (planes + [plane])[..|planes|] == planes;
    }

    lemma {:induction false} RunKeepsLanes(state: S, planes: seq<Plane>)
      requires Valid() && forall k | 0 <= k < |planes| :: |planes[k]| == lanes
      ensures forall k | 0 <= k < |planes| :: |Run(state, planes)[k]| == lanes
    {
      if planes != [] {
        RunKeepsLanes(state, planes[..|planes| - 1]);
      }
    }

    /** The run backwards over `settled`, its state first run backwards over what is ahead. */
    function Backward(settled: seq<Plane>, ahead: seq<Plane>): (out: seq<Plane>)
      ensures |out| == |settled|
    {
      Backwards(settled, StateBefore(ahead))
    }

    ghost function Backing(): (backward: Backing)
      ensures Keeps(backward)
    {
      (settled, ahead) => Backward(settled, ahead)
    }

    function StateBefore(ahead: seq<Plane>): S {
      StateAfter(silent, Reversed(ahead))
    }

    function Backwards(settled: seq<Plane>, state: S): (out: seq<Plane>)
      ensures |out| == |settled|
    {
      Reversed(Run(state, Reversed(settled)))
    }

    lemma BackwardKeepsLanes(settled: seq<Plane>, state: S)
      requires Valid() && forall k | 0 <= k < |settled| :: |settled[k]| == lanes
      ensures forall k | 0 <= k < |settled| :: |Backwards(settled, state)[k]| == lanes
    {
      RunKeepsLanes(state, Reversed(settled));
    }
  }

  function Reversed<T>(planes: seq<T>): (reversed: seq<T>)
    ensures |reversed| == |planes|
    ensures forall k {:trigger reversed[k]} | 0 <= k < |planes| :: reversed[k] == planes[|planes| - 1 - k]
  {
    seq(|planes|, k requires 0 <= k < |planes| => planes[|planes| - 1 - k])
  }

  /** The same sample in every lane. */
  function Broadcast(samples: seq<real>, lanes: nat): (planes: seq<Plane>)
    ensures |planes| == |samples|
    ensures forall k | 0 <= k < |samples| :: planes[k] == seq(lanes, _ => samples[k])
  {
    seq(|samples|, k requires 0 <= k < |samples| => seq(lanes, _ => samples[k]))
  }

  // ---------------------------------------------------------------- in place

  /** The state run backwards over what is ahead, without changing it. */
  method FoundBefore<S(!new)>(filter: Filter<S>, ahead: seq<Plane>) returns (state: S)
    ensures state == filter.StateBefore(ahead)
  {
    state := filter.silent;
    for k := |ahead| downto 0
      invariant state == filter.StateAfter(filter.silent, Reversed(ahead[k..]))
    {
      assert Reversed(ahead[k..]) == Reversed(ahead[k + 1..]) + [ahead[k]];
      filter.RunMore(filter.silent, Reversed(ahead[k + 1..]), ahead[k]);
      state := filter.step(state, ahead[k]).0;
    }
    assert ahead[0..] == ahead;
  }

  /** The planes from one place to another. */
  function Stretch<T>(planes: seq<T>, from: nat, to: nat): (stretch: seq<T>)
    requires from <= to <= |planes|
    ensures |stretch| == to - from
    ensures forall k {:trigger stretch[k]} | 0 <= k < to - from :: stretch[k] == planes[from + k]
  {
    seq(to - from, k requires 0 <= k < to - from => planes[from + k])
  }

  /** A stretch written over. */
  function Put<T>(planes: seq<T>, from: nat, out: seq<T>): (put: seq<T>)
    requires from + |out| <= |planes|
    ensures |put| == |planes|
    ensures forall k {:trigger put[k]} | 0 <= k < |planes| ::
      put[k] == if from <= k < from + |out| then out[k - from] else planes[k]
  {
    seq(|planes|, k requires 0 <= k < |planes| => if from <= k < from + |out| then out[k - from] else planes[k])
  }

  /** The planes from `from` to `to` run backwards in place. */
  method FinishBackward<S(!new)>(filter: Filter<S>, planes: array<Plane>, from: nat, to: nat, before: S)
    requires from <= to <= planes.Length
    modifies planes
    ensures planes[..] == Put(old(planes[..]), from, filter.Backwards(Stretch(old(planes[..]), from, to), before))
  {
    ghost var was := planes[..];
    var state := before;
    ghost var now := was;
    assert BackwardTo(filter, before, was, to, to, state, now);
    for k := to downto from
      invariant planes.Length == |was| && planes[..] == now
      invariant BackwardTo(filter, before, was, k, to, state, now)
    {
      BackwardOnce(filter, before, was, k, to, state, now);
      var (next, passed) := filter.step(state, planes[k]);
      planes[k] := passed;
      state := next;
      now := now[k := passed];
    }
  }

  /** How far a backward run has come. */
  ghost predicate BackwardTo<S(!new)>(
    filter: Filter<S>, before: S, was: seq<Plane>, k: nat, to: nat, state: S, now: seq<Plane>)
    requires k <= to <= |was|
  {
    var later := Reversed(Stretch(was, k, to));
    state == filter.StateAfter(before, later) && now == Put(was, k, Reversed(filter.Run(before, later)))
  }

  lemma BackwardOnce<S(!new)>(
    filter: Filter<S>, before: S, was: seq<Plane>, k: nat, to: nat, state: S, now: seq<Plane>)
    requires k < to <= |was| && BackwardTo(filter, before, was, k + 1, to, state, now)
    ensures |now| == |was| && now[k] == was[k]
    ensures var (next, passed) := filter.step(state, was[k]);
      BackwardTo(filter, before, was, k, to, next, now[k := passed])
  {
    var later := Reversed(Stretch(was, k + 1, to));
    StretchFirst(was, k, to);
    filter.RunMore(before, later, was[k]);
    PutBefore(was, k, filter.Run(before, later), filter.step(state, was[k]).1);
  }

  lemma StretchFirst<T>(planes: seq<T>, from: nat, to: nat)
    requires from < to <= |planes|
    ensures Reversed(Stretch(planes, from, to)) == Reversed(Stretch(planes, from + 1, to)) + [planes[from]]
  {
  }

  lemma PutBefore<T>(planes: seq<T>, at: nat, run: seq<T>, out: T)
    requires at + 1 + |run| <= |planes|
    ensures Put(planes, at + 1, Reversed(run))[at := out] == Put(planes, at, Reversed(run + [out]))
    ensures Put(planes, at + 1, Reversed(run))[at] == planes[at]
  {
  }

  /** Where a chunk starts, and the one before it ends. */
  function Start(nth: nat, chunk: nat): (start: nat) {
    if nth == 0 then 0 else Start(nth - 1, chunk) + chunk
  }

  lemma {:induction false} StartsRise(one: nat, other: nat, chunk: nat)
    requires one < other
    ensures Start(one, chunk) + chunk == Start(one + 1, chunk) <= Start(other, chunk)
  {
    if one + 1 < other {
      StartsRise(one, other - 1, chunk);
    }
  }

  /** What one chunk settles to: run backwards from the state that the margin of planes ahead
      of it leaves, those planes still as they were passed forwards. */
  ghost function Settled(
    backward: Backing, passed: seq<Plane>, nth: nat, chunk: nat, margin: nat): (settled: seq<Plane>)
    requires Keeps(backward)
    requires Start(nth + 1, chunk) + margin <= |passed|
    ensures |settled| == chunk
  {
    var from, to := Start(nth, chunk), Start(nth + 1, chunk);
    backward(Stretch(passed, from, to), Stretch(passed, to, to + margin))
  }

  /** The planes with the first chunks settled and the rest as they were passed. */
  ghost function SettledFirst(
    backward: Backing, passed: seq<Plane>, chunks: nat, chunk: nat, margin: nat): (planes: seq<Plane>)
    requires Keeps(backward)
    requires chunks > 0 ==> Start(chunks, chunk) + margin <= |passed|
    ensures |planes| == |passed|
    ensures forall k {:trigger planes[k]} | Start(chunks, chunk) <= k < |passed| :: planes[k] == passed[k]
  {
    if chunks == 0 then passed
    else
      Put(SettledFirst(backward, passed, chunks - 1, chunk, margin), Start(chunks - 1, chunk),
        Settled(backward, passed, chunks - 1, chunk, margin))
  }

  /** Chunk after chunk, each settled before the next, which is ahead of it and not yet
      settled. */
  method SettleInOrder<S(!new)>(filter: Filter<S>, passed: array<Plane>, chunks: nat, chunk: nat, margin: nat)
    requires chunks > 0 ==> Start(chunks, chunk) + margin <= passed.Length
    modifies passed
    ensures passed[..] == SettledFirst(filter.Backing(), old(passed[..]), chunks, chunk, margin)
  {
    ghost var was := passed[..];
    var from := 0;
    for nth := 0 to chunks
      invariant nth > 0 ==> from + margin <= |was|
      invariant from == Start(nth, chunk)
      invariant passed[..] == SettledFirst(filter.Backing(), was, nth, chunk, margin)
    {
      StartsRise(nth, chunks, chunk);
      var to := from + chunk;
      OneMoreSettled(filter.Backing(), was, passed[..], nth, from, to, chunk, margin);
      var before := FoundBefore(filter, Stretch(passed[..], to, to + margin));
      FinishBackward(filter, passed, from, to, before);
      from := to;
    }
  }

  /** Neither a chunk nor the planes ahead of it are touched by the chunks before. */
  lemma OneMoreSettled(
    backward: Backing, was: seq<Plane>, planes: seq<Plane>, nth: nat, from: nat, to: nat, chunk: nat, margin: nat)
    requires Keeps(backward)
    requires from == Start(nth, chunk) && to == Start(nth + 1, chunk) && to + margin <= |was|
    requires planes == SettledFirst(backward, was, nth, chunk, margin)
    ensures Put(planes, from, backward(Stretch(planes, from, to), Stretch(planes, to, to + margin)))
         == SettledFirst(backward, was, nth + 1, chunk, margin)
  {
    assert Stretch(planes, from, to) == Stretch(was, from, to);
    assert Stretch(planes, to, to + margin) == Stretch(was, to, to + margin);
    assert backward(Stretch(planes, from, to), Stretch(planes, to, to + margin))
      == Settled(backward, was, nth, chunk, margin);
  }

  ghost predicate ChunkIs(planes: seq<Plane>, nth: nat, chunk: nat, held: seq<Plane>) {
    Start(nth, chunk) + chunk <= |planes| && Stretch(planes, Start(nth, chunk), Start(nth, chunk) + chunk) == held
  }

  /** What a chunk holds once the chunks named are finished. */
  ghost function Finished(
    backward: Backing, was: seq<Plane>, nth: nat, chunk: nat, margin: nat, done: seq<nat>): (held: seq<Plane>)
    requires Keeps(backward)
    requires Start(nth + 1, chunk) + margin <= |was|
  {
    if nth in done then Settled(backward, was, nth, chunk, margin)
    else Stretch(was, Start(nth, chunk), Start(nth, chunk) + chunk)
  }

  /** Every chunk is as it is once those named are finished, and what is past them untouched. */
  ghost predicate FinishedEach(
    backward: Backing, was: seq<Plane>, planes: seq<Plane>, chunks: nat, chunk: nat, margin: nat, done: seq<nat>)
    requires Keeps(backward)
    requires chunks > 0 ==> Start(chunks, chunk) + margin <= |was|
  {
    && |planes| == |was| && (forall k | Start(chunks, chunk) <= k < |was| :: planes[k] == was[k])
    && forall k | 0 <= k < chunks ::
         Within(k, chunks, chunk) && ChunkIs(planes, k, chunk, Finished(backward, was, k, chunk, margin, done))
  }

  ghost predicate Within(nth: nat, chunks: nat, chunk: nat)
    requires nth < chunks
    ensures Within(nth, chunks, chunk)
    ensures Start(nth, chunk) + chunk == Start(nth + 1, chunk) <= Start(chunks, chunk)
  {
    StartsRise(nth, chunks, chunk);
    true
  }

  lemma {:induction false} ChunkByChunk(
    backward: Backing, was: seq<Plane>, planes: seq<Plane>, chunks: nat, chunk: nat, margin: nat)
    requires Keeps(backward)
    requires (chunks > 0 ==> Start(chunks, chunk) + margin <= |was|) && |planes| == |was|
    requires forall k | 0 <= k < chunks ::
      Within(k, chunks, chunk) && ChunkIs(planes, k, chunk, Settled(backward, was, k, chunk, margin))
    ensures forall i | 0 <= i < Start(chunks, chunk) ::
      planes[i] == SettledFirst(backward, was, chunks, chunk, margin)[i]
  {
    if chunks > 0 {
      var last := chunks - 1;
      assert Within(last, chunks, chunk) && ChunkIs(planes, last, chunk, Settled(backward, was, last, chunk, margin));
      forall k | 0 <= k < last
        ensures Within(k, last, chunk) && ChunkIs(planes, k, chunk, Settled(backward, was, k, chunk, margin))
      {
        assert Within(k, chunks, chunk);
      }
      ChunkByChunk(backward, was, planes, last, chunk, margin);
      var from := Start(last, chunk);
      forall i | from <= i < from + chunk ensures planes[i] == Settled(backward, was, last, chunk, margin)[i - from] {
        assert planes[i] == Stretch(planes, from, from + chunk)[i - from];
      }
    }
  }

  /** Every state first, and then every chunk from its own, in whatever order the chunks come
      to be finished: the planes settle to the same. */
  method SettleStatesFirst<S(!new)>(
    filter: Filter<S>, passed: array<Plane>, chunks: nat, chunk: nat, margin: nat, order: seq<nat>)
    requires chunks > 0 ==> Start(chunks, chunk) + margin <= passed.Length
    requires forall i, j | 0 <= i < j < |order| :: order[i] != order[j]
    requires forall nth :: nth in order <==> nth < chunks
    modifies passed
    ensures passed[..] == SettledFirst(filter.Backing(), old(passed[..]), chunks, chunk, margin)
  {
    if chunks == 0 {
      return;
    }
    ghost var was := passed[..];
    var states := StatesBefore(filter, passed, chunks, chunk, margin);
    NoneFinished(filter.Backing(), was, chunks, chunk, margin);
    for i := 0 to |order|
      invariant passed.Length == |was|
      invariant FinishedEach(filter.Backing(), was, passed[..], chunks, chunk, margin, order[..i])
    {
      var nth := order[i];
      assert nth in order && nth !in order[..i];
      assert Within(nth, chunks, chunk);
      FinishChunk(filter, passed, nth, Start(nth, chunk), chunks, chunk, margin, states[nth], was, order[..i]);
      assert order[..i + 1] == order[..i] + [nth];
    }
    assert order[..|order|] == order;
    AllFinished(filter.Backing(), was, passed[..], chunks, chunk, margin, order);
    ChunkByChunk(filter.Backing(), was, passed[..], chunks, chunk, margin);
  }

  lemma NoneFinished(backward: Backing, was: seq<Plane>, chunks: nat, chunk: nat, margin: nat)
    requires Keeps(backward)
    requires chunks > 0 ==> Start(chunks, chunk) + margin <= |was|
    ensures FinishedEach(backward, was, was, chunks, chunk, margin, [])
  {
    forall k | 0 <= k < chunks
      ensures Within(k, chunks, chunk) && ChunkIs(was, k, chunk, Finished(backward, was, k, chunk, margin, []))
    {
      assert Within(k, chunks, chunk);
    }
  }

  method StatesBefore<S(!new)>(filter: Filter<S>, passed: array<Plane>, chunks: nat, chunk: nat, margin: nat)
    returns (states: seq<S>)
    requires chunks > 0 ==> Start(chunks, chunk) + margin <= passed.Length
    ensures |states| == chunks
    ensures forall k | 0 <= k < chunks ::
      Within(k, chunks, chunk)
      && states[k] == filter.StateBefore(Stretch(passed[..], Start(k + 1, chunk), Start(k + 1, chunk) + margin))
  {
    states := [];
    var to := 0;
    for nth := 0 to chunks
      invariant |states| == nth && to == Start(nth, chunk)
      invariant forall k | 0 <= k < nth ::
        Within(k, chunks, chunk)
        && states[k] == filter.StateBefore(Stretch(passed[..], Start(k + 1, chunk), Start(k + 1, chunk) + margin))
    {
      assert Within(nth, chunks, chunk);
      to := to + chunk;
      var state := FoundBefore(filter, Stretch(passed[..], to, to + margin));
      states := states + [state];
    }
  }

  method FinishChunk<S(!new)>(
    filter: Filter<S>, passed: array<Plane>, nth: nat, from: nat, chunks: nat, chunk: nat, margin: nat, state: S,
    ghost was: seq<Plane>, ghost done: seq<nat>)
    requires nth < chunks && nth !in done && from == Start(nth, chunk)
    requires Start(chunks, chunk) + margin <= |was| && Within(nth, chunks, chunk)
    requires state == filter.StateBefore(Stretch(was, Start(nth + 1, chunk), Start(nth + 1, chunk) + margin))
    requires FinishedEach(filter.Backing(), was, passed[..], chunks, chunk, margin, done)
    modifies passed
    ensures FinishedEach(filter.Backing(), was, passed[..], chunks, chunk, margin, done + [nth])
  {
    ChunkFinishes(filter, was, passed[..], nth, from, chunks, chunk, margin, state, done);
    FinishBackward(filter, passed, from, from + chunk, state);
  }

  lemma ChunkFinishes<S(!new)>(
    filter: Filter<S>, was: seq<Plane>, before: seq<Plane>, nth: nat, from: nat, chunks: nat, chunk: nat, margin: nat,
    state: S, done: seq<nat>)
    requires nth < chunks && nth !in done && Start(chunks, chunk) + margin <= |was| && Within(nth, chunks, chunk)
    requires state == filter.StateBefore(Stretch(was, Start(nth + 1, chunk), Start(nth + 1, chunk) + margin))
    requires from == Start(nth, chunk) && FinishedEach(filter.Backing(), was, before, chunks, chunk, margin, done)
    ensures from + chunk <= |before|
    ensures FinishedEach(filter.Backing(), was,
      Put(before, from, filter.Backwards(Stretch(before, from, from + chunk), state)),
      chunks, chunk, margin, done + [nth])
  {
    UnfinishedYet(filter, was, before, nth, from, chunks, chunk, margin, state, done);
    var after := Put(before, from, filter.Backwards(Stretch(before, from, from + chunk), state));
    OneMoreFinished(filter.Backing(), was, before, after, nth, chunks, chunk, margin, done);
  }

  lemma UnfinishedYet<S(!new)>(
    filter: Filter<S>, was: seq<Plane>, before: seq<Plane>, nth: nat, from: nat, chunks: nat, chunk: nat, margin: nat,
    state: S, done: seq<nat>)
    requires nth < chunks && nth !in done && Start(chunks, chunk) + margin <= |was| && Within(nth, chunks, chunk)
    requires state == filter.StateBefore(Stretch(was, Start(nth + 1, chunk), Start(nth + 1, chunk) + margin))
    requires from == Start(nth, chunk) && FinishedEach(filter.Backing(), was, before, chunks, chunk, margin, done)
    ensures from + chunk <= |before|
    ensures filter.Backwards(Stretch(before, from, from + chunk), state)
      == Settled(filter.Backing(), was, nth, chunk, margin)
  {
    assert ChunkIs(before, nth, chunk, Finished(filter.Backing(), was, nth, chunk, margin, done));
  }

  lemma OneMoreFinished(
    backward: Backing, was: seq<Plane>, before: seq<Plane>, after: seq<Plane>, nth: nat, chunks: nat, chunk: nat,
    margin: nat, done: seq<nat>)
    requires Keeps(backward)
    requires nth < chunks && Start(chunks, chunk) + margin <= |was| && Within(nth, chunks, chunk)
    requires FinishedEach(backward, was, before, chunks, chunk, margin, done)
    requires after == Put(before, Start(nth, chunk), Settled(backward, was, nth, chunk, margin))
    ensures FinishedEach(backward, was, after, chunks, chunk, margin, done + [nth])
  {
    forall k | 0 <= k < chunks ensures Within(k, chunks, chunk)
      && ChunkIs(after, k, chunk, Finished(backward, was, k, chunk, margin, done + [nth]))
    {
      assert Within(k, chunks, chunk);
      assert ChunkIs(before, k, chunk, Finished(backward, was, k, chunk, margin, done));
      ChunkAfter(before, Settled(backward, was, nth, chunk, margin), after, nth, k,
        Start(nth, chunk), Start(k, chunk), chunk,
        Finished(backward, was, k, chunk, margin, done));
    }
  }

  lemma ChunkAfter(
    before: seq<Plane>, settled: seq<Plane>, after: seq<Plane>, nth: nat, k: nat, from: nat, at: nat, chunk: nat,
    held: seq<Plane>)
    requires from == Start(nth, chunk) && at == Start(k, chunk)
    requires |settled| == chunk && from + chunk <= |before| && at + chunk <= |before|
    requires after == Put(before, from, settled) && ChunkIs(before, k, chunk, held)
    ensures ChunkIs(after, k, chunk, if k == nth then settled else held)
  {
    if k < nth {
      StartsRise(k, nth, chunk);
    } else if nth < k {
      StartsRise(nth, k, chunk);
    }
    PutHolds(before, from, settled, at, chunk);
  }

  lemma AllFinished(
    backward: Backing, was: seq<Plane>, planes: seq<Plane>, chunks: nat, chunk: nat, margin: nat, done: seq<nat>)
    requires Keeps(backward)
    requires chunks > 0 ==> Start(chunks, chunk) + margin <= |was|
    requires FinishedEach(backward, was, planes, chunks, chunk, margin, done)
    requires forall nth | 0 <= nth < chunks :: nth in done
    ensures forall k | 0 <= k < chunks ::
      Within(k, chunks, chunk) && ChunkIs(planes, k, chunk, Settled(backward, was, k, chunk, margin))
  {
    forall k | 0 <= k < chunks
      ensures Within(k, chunks, chunk) && ChunkIs(planes, k, chunk, Settled(backward, was, k, chunk, margin))
    {
      assert Within(k, chunks, chunk);
      assert ChunkIs(planes, k, chunk, Finished(backward, was, k, chunk, margin, done));
    }
  }

  lemma PutHolds<T>(planes: seq<T>, from: nat, out: seq<T>, at: nat, length: nat)
    requires from + |out| <= |planes| && at + length <= |planes|
    ensures at == from && length == |out| ==> Stretch(Put(planes, from, out), at, at + length) == out
    ensures at + length <= from || from + |out| <= at ==>
      Stretch(Put(planes, from, out), at, at + length) == Stretch(planes, at, at + length)
  {
  }
}
